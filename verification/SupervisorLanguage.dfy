/** The language of journals that runs of execute alone can write, and what it gives to later calls. */
module SupervisorLanguage {
  import opened Wrappers
  import opened HealthContract
  import opened Journal
  import opened SupervisorProtocol
  import opened SupervisorSafety
  import opened SupervisorVerdicts

  /** The states of the automaton that reads a journal. */
  datatype Phase =
    | Start
    | Accepted
    | NotRecorded              // the resource row or the marker could not be recorded
    | Submitted
    | MutationLost             // MUTATION_FAILED
    | Completed
    | Reconciling
    | Reconciled(seen: RuntimeState)
    | HealthRunning
    | HealthErrored
    | HealthJudged(state: RuntimeState)
    | Disconnected             // the UNKNOWN result of a reconciliation could not be recorded
    | Terminal(state: RuntimeState)
    | TerminalDisconnected(state: RuntimeState)
    | Rejected

  /** The mutation was submitted and no terminal record follows yet. */
  predicate Open(phase: Phase) {
    phase.Submitted? || phase.MutationLost? || phase.Completed? || phase.Reconciling? || phase.Reconciled?
    || phase.HealthRunning? || phase.HealthErrored? || phase.HealthJudged? || phase.Disconnected?
  }

  predicate Closed(phase: Phase) {
    phase.Terminal? || phase.TerminalDisconnected?
  }

  function Read(phase: Phase, record: Record): Phase {
    match record.event
    case AttemptAccepted =>
      if phase.Start? || phase.Accepted? || phase.NotRecorded? then Accepted else Rejected
    case MutationSubmitted => if phase.Accepted? then Submitted else Rejected
    case MutationFailed => if phase.Submitted? then MutationLost else Rejected
    case MutationCompleted => if phase.Submitted? then Completed else Rejected
    case ReconciliationStarted => if Open(phase) then Reconciling else Rejected
    case ReconciliationResult =>
      if phase.Reconciling? && record.detail.StateDetail? then Reconciled(record.detail.state) else Rejected
    case HealthStarted =>
      if phase.Completed? || phase == Reconciled(CompletedHealthUnknown) then HealthRunning else Rejected
    case HealthPassed =>
      if phase.HealthRunning? && record.detail == StateDetail(Healthy) then HealthJudged(Healthy) else Rejected
    case HealthFailed =>
      if phase.HealthRunning? && record.detail.ErrorDetail? then HealthErrored
      else if (phase.HealthRunning? || phase.HealthErrored?) && record.detail == StateDetail(Failed) then
        HealthJudged(Failed)
      else Rejected
    case AttemptTerminal =>
      if phase.MutationLost? && record.detail == StateDetail(Failed) then Terminal(Failed)
      else if phase.HealthJudged? && record.detail == StateDetail(phase.state) then Terminal(phase.state)
      else if phase.Reconciled? && Decided(phase.seen) && record.detail == StateDetail(phase.seen) then
        Terminal(phase.seen)
      else Rejected
    case DbDisconnected =>
      if phase.Accepted? then NotRecorded
      else if phase.Reconciled? && !Decided(phase.seen) && phase.seen != CompletedHealthUnknown then Disconnected
      else if phase.Terminal? then TerminalDisconnected(phase.state)
      else Rejected
  }

  function PhaseOf(records: seq<Record>): Phase {
    if records == [] then Start
    else Read(PhaseOf(records[..|records| - 1]), records[|records| - 1])
  }

  lemma PhaseAppend(records: seq<Record>, record: Record)
    ensures PhaseOf(records + [record]) == Read(PhaseOf(records), record)
  {
    assert (records + [record])[..|records|] == records;
  }

  /** What accepted records look like to _terminal_state and to the search for MUTATION_SUBMITTED. */
  lemma {:induction false} AcceptedShape(records: seq<Record>)
    requires !PhaseOf(records).Rejected?
    ensures var phase := PhaseOf(records);
      && (phase.Start? <==> records == [])
      && (Closed(phase) ==> Decided(phase.state))
      && |TerminalRecords(records)| == (if Closed(phase) then 1 else 0)
      && (Closed(phase) ==> TerminalRecords(records)[0].detail == StateDetail(phase.state))
      && (phase.HealthJudged? ==> Decided(phase.state))
      && ((exists r <- records :: r.event == MutationSubmitted) <==> Open(phase) || Closed(phase))
      && (records != [] ==>
            (records[|records| - 1].event == DbDisconnected <==>
             phase.NotRecorded? || phase.Disconnected? || phase.TerminalDisconnected?))
  {
    if records != [] {
      var n := |records| - 1;
      AcceptedShape(records[..n]);
      assert records == records[..n] + [records[n]];
      assert forall r :: r in records <==> r in records[..n] || r == records[n];
    }
  }

  /** An accepted journal with a terminal record has one verdict, and it is read without an error. */
  function VerdictOf(phase: Phase): RuntimeState
    requires Closed(phase)
  {
    if phase.TerminalDisconnected? then Unknown else phase.state
  }

  lemma AcceptedVerdict(records: seq<Record>)
    requires !PhaseOf(records).Rejected?
    ensures TerminalRecords(records) != [] <==> Closed(PhaseOf(records))
    ensures Closed(PhaseOf(records)) ==> TerminalState(records) == Success(VerdictOf(PhaseOf(records)))
  {
    AcceptedShape(records);
  }

  // ---------------------------------------------------------------- every journal is accepted

  predicate Fresh(phase: Phase) {
    phase.Start? || phase.Accepted? || phase.NotRecorded?
  }

  /** Where the running call stands, told from the journal. */
  predicate InStep(pc: Pc, phase: Phase) {
    match pc
    case Idle => true
    case Raising(_) => true
    case Loading(op) => op == Execute
    case CheckMarker => phase.Start?
    case WriteAccepted => Fresh(phase)
    case ValidatePlan => phase.Accepted?
    case CollectResources => phase.Accepted?
    case RecordResource => phase.Accepted?
    case RecordMarker => phase.Accepted?
    case WriteSubmitted => phase.Accepted?
    case Submit => phase.Submitted?
    case WriteMutationFailed => phase.Submitted?
    case WriteCompleted => phase.Submitted?
    case WriteReconStarted => Open(phase)
    case Observe => phase.Reconciling?
    case WriteReconResult(_) => phase.Reconciling?
    case WriteHealthStarted => phase.Completed? || phase == Reconciled(CompletedHealthUnknown)
    case LoadAnchor => phase.HealthRunning?
    case WriteAnchorMissing => false
    case VerifyHealth(_) => phase.HealthRunning?
    case WriteHealthError => phase.HealthRunning?
    case WriteHealthVerdict(pass) => phase.HealthRunning? || (phase.HealthErrored? && pass.None?)
    case WriteTerminal(state, _) =>
      || (phase.MutationLost? && state == Failed)
      || phase == HealthJudged(state)
      || (phase == Reconciled(state) && Decided(state))
    case RecordResult(state, _) =>
      || phase == Terminal(state)
      || (state == Unknown && phase.Reconciled? && !Decided(phase.seen) && phase.seen != CompletedHealthUnknown)
    case WriteDbDisconnected =>
      || phase.Accepted? || phase.Terminal?
      || (phase.Reconciled? && !Decided(phase.seen) && phase.seen != CompletedHealthUnknown)
    case Return(verdict) =>
      && verdict.State?
      && (Closed(phase) ==> verdict.state == VerdictOf(phase))
      && (!Closed(phase) ==> verdict.state == Unknown)
    case _ => false
  }

  function PhaseIn(s: System): Phase {
    PhaseOf(CleanPrefix(s.journal.lines))
  }

  predicate Regular(s: System) {
    && Exclusive(s)
    && OnlyExecutes(s)
    && !PhaseIn(s).Rejected?
    && (!Corrupt(s.journal) ==> forall p :: 0 <= p < |s.procs| ==> InStep(s.procs[p], PhaseIn(s)))
  }

  /** The record a call in step writes is one the automaton accepts, and leaves the call in step. */
  lemma WriteInStep(pc: Pc, phase: Phase, timestamp: int)
    requires Pending(pc).Some? && InStep(pc, phase) && !phase.Rejected?
    requires phase.HealthJudged? ==> Decided(phase.state)
    ensures var (event, detail) := Pending(pc).value;
      var next := Read(phase, Record(event, timestamp, detail));
      !next.Rejected? && InStep(AfterWrite(pc), next)
  {
  }

  lemma {:induction false} PrefixAccepted(records: seq<Record>, n: nat)
    requires n <= |records| && !PhaseOf(records).Rejected?
    ensures !PhaseOf(records[..n]).Rejected?
    decreases |records|
  {
    if n == |records| {
      assert records[..n] == records;
    } else {
      var m := |records| - 1;
      PrefixAccepted(records[..m], n);
      assert records[..m][..n] == records[..n];
    }
  }

  /** An append that spoils the journal leaves an accepted prefix. */
  lemma SpoiledPrefix(file: File, record: Record, write: Write)
    requires file.Valid() && !PhaseOf(CleanPrefix(file.lines)).Rejected?
    requires Corrupt(Append(file, record, write))
    ensures !PhaseOf(CleanPrefix(Append(file, record, write).lines)).Rejected?
  {
    var records := CleanPrefix(file.lines);
    var longer := Append(file, record, write).lines;
    var n := if |records| == |file.lines| && !file.terminated && write != Nothing then |records| - 1 else |records|;
    PrefixAccepted(records, n);
    CleanPrefixUnique(longer, records[..n]);
  }

  /** The journal stays readable: the record was appended whole, or nothing was. */
  lemma CleanWrite(s: System, p: nat, write: Write)
    requires Regular(s) && p < |s.procs| && Pending(s.procs[p]).Some?
    requires !Corrupt(ActWrite(s, p, write, false).journal)
    ensures var t := ActWrite(s, p, write, false);
      !PhaseIn(t).Rejected? && (write != Nothing ==> InStep(AfterWrite(s.procs[p]), PhaseIn(t)))
  {
    var (event, detail) := Pending(s.procs[p]).value;
    var record := Record(event, s.now, detail);
    if Corrupt(s.journal) {
      AppendKeepsCorruption(s.journal, record, write);
    }
    AppendCases(s.journal, record, write);
    CleanPrefixOfClean(s.journal.lines, Entry(record));
    PhaseAppend(CleanPrefix(s.journal.lines), record);
    AcceptedShape(CleanPrefix(s.journal.lines));
    WriteInStep(s.procs[p], PhaseIn(s), s.now);
    if write != Nothing {
      assert ActWrite(s, p, write, false).journal.lines == s.journal.lines + [Entry(record)];
    }
  }

  /** The running call moves; nobody else is inside one. */
  lemma RegularMove(s: System, t: System, p: nat)
    requires Regular(s) && Exclusive(t) && p < |s.procs| && !s.procs[p].Idle?
    requires |t.procs| == |s.procs| && t.procs == s.procs[p := t.procs[p]] && !t.procs[p].Loading?
    requires !PhaseIn(t).Rejected? && (Corrupt(t.journal) || InStep(t.procs[p], PhaseIn(t)))
    ensures Regular(t)
  {
    assert forall q :: 0 <= q < |s.procs| && q != p ==> s.procs[q].Idle?;
  }

  lemma RegularWrite(s: System, p: nat, write: Write, died: bool)
    requires Regular(s) && p < |s.procs| && Pending(s.procs[p]).Some?
    requires write == Nothing ==> died
    requires Exclusive(ActWrite(s, p, write, died))
    ensures Regular(ActWrite(s, p, write, died))
  {
    var (event, detail) := Pending(s.procs[p]).value;
    var record := Record(event, s.now, detail);
    var t := ActWrite(s, p, write, died);
    if Corrupt(t.journal) {
      SpoiledPrefix(s.journal, record, write);
    } else {
      CleanWrite(s, p, write);
      assert InStep(t.procs[p], PhaseIn(t));
    }
    RegularMove(s, t, p);
  }

  lemma SubmittedIsRecorded(s: System)
    requires !Corrupt(s.journal) && !PhaseIn(s).Rejected?
    ensures HasEvent(s.journal.lines, MutationSubmitted) <==> Open(PhaseIn(s)) || Closed(PhaseIn(s))
  {
    var records := CleanPrefix(s.journal.lines);
    AcceptedShape(records);
    assert forall i :: 0 <= i < |records| ==> s.journal.lines[i] == Entry(records[i]);
  }

  lemma RegularLoad(s: System, p: nat)
    requires Regular(s) && p < |s.procs| && s.procs[p] == Loading(Execute)
    requires Exclusive(ActLoad(s, p, Execute))
    ensures Regular(ActLoad(s, p, Execute))
  {
    var t := ActLoad(s, p, Execute);
    LoadCases(s, p, Execute);
    if !Corrupt(s.journal) {
      AcceptedShape(CleanPrefix(s.journal.lines));
      AcceptedVerdict(CleanPrefix(s.journal.lines));
      SubmittedIsRecorded(s);
      assert InStep(t.procs[p], PhaseIn(s));
    }
  }

  lemma PrepareInStep(s: System, p: nat, answer: Answer, phase: Phase)
    requires p < |s.procs| && Fits(s.procs[p], answer) && Preparing(s.procs[p]) && InStep(s.procs[p], phase)
    ensures InStep(ActPrepare(s, p, answer).procs[p], phase)
  {
  }

  lemma RegularPrepare(s: System, p: nat, answer: Answer)
    requires Regular(s) && p < |s.procs| && Fits(s.procs[p], answer) && Preparing(s.procs[p])
    requires Exclusive(ActPrepare(s, p, answer))
    ensures Regular(ActPrepare(s, p, answer))
  {
    PrepareCases(s, p, answer);
    if !Corrupt(s.journal) {
      PrepareInStep(s, p, answer, PhaseIn(s));
    }
  }

  lemma RunningHealthHasAnchor(records: seq<Record>)
    requires PhaseOf(records).HealthRunning?
    ensures Anchor(records).Some?
  {
    AnchorExists(records, |records| - 1);
  }

  /** A step that reads or asks keeps the call in step. */
  lemma JudgeInStep(s: System, p: nat, answer: Answer, phase: Phase)
    requires p < |s.procs| && Fits(s.procs[p], answer)
    requires Pending(s.procs[p]).None? && !Preparing(s.procs[p]) && !s.procs[p].Loading?
    requires s.procs[p].LoadAnchor? ==> Anchor(CleanPrefix(s.journal.lines)).Some? || Corrupt(s.journal)
    requires InStep(s.procs[p], phase) && (phase.Terminal? ==> Decided(phase.state))
    ensures InStep(ActJudge(s, p, answer).procs[p], phase)
  {
  }

  lemma RegularJudge(s: System, p: nat, answer: Answer)
    requires Regular(s) && p < |s.procs| && Fits(s.procs[p], answer)
    requires Pending(s.procs[p]).None? && !Preparing(s.procs[p]) && !s.procs[p].Loading?
    requires Exclusive(ActJudge(s, p, answer))
    ensures Regular(ActJudge(s, p, answer))
  {
    JudgeCases(s, p, answer);
    if !Corrupt(s.journal) {
      AcceptedShape(CleanPrefix(s.journal.lines));
      if s.procs[p].LoadAnchor? {
        RunningHealthHasAnchor(CleanPrefix(s.journal.lines));
      }
      JudgeInStep(s, p, answer, PhaseIn(s));
    }
  }

  lemma RegularEffect(s: System, p: nat, answer: Answer)
    requires Regular(s) && p < |s.procs| && Fits(s.procs[p], answer)
    requires Exclusive(Effect(s, p, answer))
    ensures Regular(Effect(s, p, answer))
  {
    var pc := s.procs[p];
    if Pending(pc).Some? {
      RegularWrite(s, p, answer.write, answer.DiedWriting?);
    } else if pc.Loading? {
      if answer == Ok {
        RegularLoad(s, p);
      }
    } else if Preparing(pc) {
      RegularPrepare(s, p, answer);
    } else {
      RegularJudge(s, p, answer);
    }
  }

  lemma RegularNext(rules: Rules, s: System, l: Label)
    requires Regular(s) && Enabled(s, l) && Allowed(rules, s, l)
    requires rules.ops == {Execute}
    ensures Regular(Next(s, l))
  {
    ExclusiveNext(s, l);
    if l.Act? {
      RegularEffect(s, l.p, l.answer);
    }
  }

  lemma {:induction false} RegularRun(rules: Rules, s: System, ls: seq<Label>)
    requires Regular(s) && Run(rules, s, ls).Some?
    requires rules.ops == {Execute}
    ensures Regular(Run(rules, s, ls).value)
  {
    if ls != [] {
      var n := |ls| - 1;
      RegularRun(rules, s, ls[..n]);
      RegularNext(rules, Run(rules, s, ls[..n]).value, ls[n]);
    }
  }

  /** With execute alone, and crashes, torn or short writes and file losses anywhere: the journal up to a spoiled
      line is accepted, so it holds at most one terminal record, and a journal that loads with one has a verdict. */
  lemma JournalsAreAccepted(rules: Rules, attempt: SupervisorAttempt, processes: nat, now: int, ls: seq<Label>)
    requires rules.ops == {Execute}
    requires Run(rules, Init(attempt, processes, now), ls).Some?
    ensures var s := Run(rules, Init(attempt, processes, now), ls).value;
      var records := CleanPrefix(s.journal.lines);
      && !PhaseOf(records).Rejected?
      && |TerminalRecords(records)| <= 1
      && (TerminalRecords(records) != [] ==> TerminalState(records).Success?)
  {
    RegularRun(rules, Init(attempt, processes, now), ls);
    var records := CleanPrefix(Run(rules, Init(attempt, processes, now), ls).value.journal.lines);
    AcceptedShape(records);
    AcceptedVerdict(records);
  }

  // ---------------------------------------------------------------- a terminal journal is final

  const JOURNAL_MISSING := "journal_missing_after_db_submission"

  /** Out of the lock, or on the way to the verdict or to a refusal; `lossy` if the file may have vanished since. */
  predicate Harmless(pc: Pc, verdict: RuntimeState, lossy: bool) {
    || pc.Idle? || pc == Loading(Execute) || pc == Return(State(verdict)) || pc == Raising("authority")
    || (lossy && (pc.CheckMarker? || pc == Raising("database") || pc == Raising(JOURNAL_MISSING)))
  }

  predicate HarmlessOutcome(outcome: Outcome, verdict: RuntimeState, lossy: bool) {
    || outcome == Returned(State(verdict)) || outcome == Raised("authority")
    || (lossy && (outcome == Raised("database") || outcome == Raised(JOURNAL_MISSING)))
  }

  /** Nothing but the lock, the clock and the list of outcomes differs, apart from the file being gone where it may be
      lost, and every call there is is on its way to the same verdict or to a refusal. */
  predicate Settled(origin: System, verdict: RuntimeState, s: System, lossy: bool) {
    && |s.procs| == |origin.procs|
    && s == origin.(journal := s.journal, now := s.now, holder := s.holder, procs := s.procs, outcomes := s.outcomes)
    && (s.journal == origin.journal || (lossy && s.journal == EMPTY))
    && (forall p :: 0 <= p < |s.procs| ==> Harmless(s.procs[p], verdict, lossy))
    && |s.outcomes| >= |origin.outcomes|
    && s.outcomes[..|origin.outcomes|] == origin.outcomes
    && (forall i :: |origin.outcomes| <= i < |s.outcomes| ==> HarmlessOutcome(s.outcomes[i], verdict, lossy))
  }

  lemma SettledGoto(origin: System, verdict: RuntimeState, s: System, p: nat, pc: Pc, lossy: bool)
    requires Settled(origin, verdict, s, lossy) && p < |s.procs| && Harmless(pc, verdict, lossy)
    ensures Settled(origin, verdict, Goto(s, p, pc), lossy)
  {
  }

  lemma SettledExit(origin: System, verdict: RuntimeState, s: System, p: nat, outcome: Outcome, lossy: bool)
    requires Settled(origin, verdict, s, lossy) && p < |s.procs| && HarmlessOutcome(outcome, verdict, lossy)
    ensures Settled(origin, verdict, Exit(s, p, outcome), lossy)
  {
  }

  /** A journal that loads with one verdict, and the database marker where the file may be lost. */
  predicate Final(s: System, verdict: RuntimeState, lossy: bool) {
    && !Corrupt(s.journal) && TerminalRecords(CleanPrefix(s.journal.lines)) != []
    && TerminalState(CleanPrefix(s.journal.lines)) == Success(verdict)
    && (lossy ==> s.marker)
  }

  lemma SettledLoad(origin: System, verdict: RuntimeState, s: System, p: nat, lossy: bool)
    requires Settled(origin, verdict, s, lossy) && p < |s.procs| && Final(origin, verdict, lossy)
    ensures Settled(origin, verdict, ActLoad(s, p, Execute), lossy)
  {
    if s.journal == origin.journal {
      assert ActLoad(s, p, Execute) == Goto(s, p, Return(State(verdict)));
      SettledGoto(origin, verdict, s, p, Return(State(verdict)), lossy);
    } else {
      assert ActLoad(s, p, Execute) == Goto(s, p, CheckMarker);
      SettledGoto(origin, verdict, s, p, CheckMarker, lossy);
    }
  }

  lemma SettledMarker(origin: System, verdict: RuntimeState, s: System, p: nat, answer: Answer, lossy: bool)
    requires Settled(origin, verdict, s, lossy) && p < |s.procs| && Final(origin, verdict, lossy)
    requires s.procs[p].CheckMarker? && Fits(s.procs[p], answer)
    ensures Settled(origin, verdict, ActPrepare(s, p, answer), lossy)
  {
    var code := if answer == Raise then "database" else JOURNAL_MISSING;
    assert ActPrepare(s, p, answer) == Goto(s, p, Raising(code));
    SettledGoto(origin, verdict, s, p, Raising(code), lossy);
  }

  lemma EffectOfLeaving(s: System, p: nat, answer: Answer)
    requires p < |s.procs| && Fits(s.procs[p], answer) && s.journal.Valid()
    requires s.procs[p].Return? || s.procs[p].Raising?
    ensures Effect(s, p, answer)
         == Exit(s, p, if s.procs[p].Return? then Returned(s.procs[p].verdict) else Raised(s.procs[p].code))
  {
    assert Effect(s, p, answer) == ActJudge(s, p, answer);
  }

  lemma SettledAct(origin: System, verdict: RuntimeState, s: System, p: nat, answer: Answer, lossy: bool)
    requires Settled(origin, verdict, s, lossy) && p < |s.procs| && Fits(s.procs[p], answer) && s.journal.Valid()
    requires Final(origin, verdict, lossy)
    ensures Settled(origin, verdict, Effect(s, p, answer), lossy)
  {
    var pc := s.procs[p];
    if pc.Loading? {
      SettledLoad(origin, verdict, s, p, lossy);
      SettledGoto(origin, verdict, s, p, Raising("authority"), lossy);
    } else if pc.CheckMarker? {
      SettledMarker(origin, verdict, s, p, answer, lossy);
    } else {
      EffectOfLeaving(s, p, answer);
      SettledExit(origin, verdict, s, p, if pc.Return? then Returned(pc.verdict) else Raised(pc.code), lossy);
    }
  }

  lemma SettledNext(rules: Rules, origin: System, verdict: RuntimeState, s: System, l: Label)
    requires Settled(origin, verdict, s, rules.fileLoss) && Enabled(s, l) && Allowed(rules, s, l)
    requires rules.ops == {Execute} && Final(origin, verdict, rules.fileLoss)
    ensures Settled(origin, verdict, Next(s, l), rules.fileLoss)
  {
    if l.Act? {
      SettledAct(origin, verdict, s, l.p, l.answer, rules.fileLoss);
    }
  }

  /** Once all calls are over and the journal loads with a terminal record, later calls of execute append nothing, never
      reach the runtime or the evidence rows, and each one that gets past the database returns the verdict that
      _terminal_state reads from this very journal; if the file vanishes after that, they raise because of the marker
      in the database. */
  lemma {:induction false} TerminalJournalIsFinal(rules: Rules, s: System, ls: seq<Label>, verdict: RuntimeState)
    requires AllIdle(s) && Run(rules, s, ls).Some?
    requires rules.ops == {Execute} && Final(s, verdict, rules.fileLoss)
    ensures Settled(s, verdict, Run(rules, s, ls).value, rules.fileLoss)
  {
    if ls != [] {
      var n := |ls| - 1;
      TerminalJournalIsFinal(rules, s, ls[..n], verdict);
      SettledNext(rules, s, verdict, Run(rules, s, ls[..n]).value, ls[n]);
    }
  }

  /** The same over whole runs of execute: a first part that ends idle on a journal with a terminal record decides what
      every later call returns. The marker is there by then, so no condition on the database is left. */
  lemma FinishedRunsStayFinished(
      rules: Rules, attempt: SupervisorAttempt, processes: nat, now: int, first: seq<Label>, later: seq<Label>)
    requires rules.ops == {Execute} && Run(rules, Init(attempt, processes, now), first).Some?
    requires var s := Run(rules, Init(attempt, processes, now), first).value;
      && AllIdle(s) && !Corrupt(s.journal) && TerminalRecords(CleanPrefix(s.journal.lines)) != []
      && Run(rules, s, later).Some?
    ensures var s := Run(rules, Init(attempt, processes, now), first).value;
      exists verdict ::
        Final(s, verdict, rules.fileLoss) && Settled(s, verdict, Run(rules, s, later).value, rules.fileLoss)
  {
    var origin := Init(attempt, processes, now);
    var s := Run(rules, origin, first).value;
    RegularRun(rules, origin, first);
    AcceptedVerdict(CleanPrefix(s.journal.lines));
    SubmittedIsRecorded(s);
    ExecuteOnlyRun(rules, origin, first);
    AtMostOneMutation(rules.(appendToLostJournal := false), attempt, processes, now, first);
    var verdict := VerdictOf(PhaseIn(s));
    TerminalJournalIsFinal(rules, s, later, verdict);
  }
}
