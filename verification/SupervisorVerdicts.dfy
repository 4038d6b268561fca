/** The fixed health window and the soundness of HEALTHY and FAILED verdicts, over every run. */
module SupervisorVerdicts {
  import opened Wrappers
  import opened HealthContract
  import opened Journal
  import opened SupervisorProtocol
  import opened SupervisorSafety

  // ---------------------------------------------------------------- the health window

  predicate OnWindow(s: System) {
    var anchor := Anchor(CleanPrefix(s.journal.lines));
    anchor.Some? && forall d <- s.deadlines :: d == anchor.value + 120
  }

  predicate SoundPass(s: System, pass: Pass) {
    Passes(s.attempt, pass.cycle, pass.deadline) && pass.deadline in s.deadlines
  }

  predicate WindowPc(s: System, pc: Pc) {
    && (pc.LoadAnchor? ==> Shown(s, HealthStarted))
    && !pc.WriteAnchorMissing?
    && (pc.VerifyHealth? ==> pc.deadline in s.deadlines)
    && (pc.WriteHealthVerdict? && pc.pass.Some? ==> SoundPass(s, pc.pass.value))
  }

  predicate Windowed(s: System, kept: bool) {
    && Exclusive(s)
    && (kept ==> forall c, d | c in s.deadlines && d in s.deadlines :: c == d)
    && (kept && s.deadlines != [] && !Corrupt(s.journal) ==> OnWindow(s))
    && (forall pass <- s.passes :: SoundPass(s, pass))
    && (forall p :: 0 <= p < |s.procs| ==> WindowPc(s, s.procs[p]))
  }

  lemma OnWindowAppend(s: System, record: Record, write: Write)
    requires s.journal.Valid() && !Corrupt(s.journal) && OnWindow(s)
    ensures var journal := Append(s.journal, record, write);
      Corrupt(journal) || OnWindow(s.(journal := journal))
  {
    AppendCases(s.journal, record, write);
    CleanPrefixOfClean(s.journal.lines, Entry(record));
    AnchorAppend(CleanPrefix(s.journal.lines), record);
  }

  lemma WindowedWrite(s: System, p: nat, write: Write, died: bool, kept: bool)
    requires Windowed(s, kept) && p < |s.procs| && Pending(s.procs[p]).Some?
    requires write == Nothing ==> died
    ensures Windowed(ActWrite(s, p, write, died), kept)
  {
    var (event, detail) := Pending(s.procs[p]).value;
    var record := Record(event, s.now, detail);
    var t := ActWrite(s, p, write, died);
    if Corrupt(s.journal) {
      AppendKeepsCorruption(s.journal, record, write);
    } else if kept && s.deadlines != [] {
      OnWindowAppend(s, record, write);
    }
    if write != Nothing {
      AppendShowsItsEvent(s.journal, record, write);
    }
    assert forall q :: 0 <= q < |s.procs| && q != p ==> t.procs[q].Idle?;
  }

  lemma ShownAnchor(s: System)
    requires Shown(s, HealthStarted) && !Corrupt(s.journal)
    ensures Anchor(CleanPrefix(s.journal.lines)).Some?
  {
    var i :| 0 <= i < |s.journal.lines| && s.journal.lines[i].Entry?
             && s.journal.lines[i].record.event == HealthStarted;
    AnchorExists(CleanPrefix(s.journal.lines), i);
  }

  lemma WindowedLoadAnchor(s: System, p: nat, kept: bool)
    requires Windowed(s, kept) && p < |s.procs| && s.procs[p].LoadAnchor?
    ensures Windowed(ActLoadAnchor(s, p), kept)
  {
    if !Corrupt(s.journal) {
      ShownAnchor(s);
    }
  }

  lemma WindowedMove(s: System, t: System, p: nat, kept: bool)
    requires Windowed(s, kept) && p < |s.procs| && Exclusive(t)
    requires |t.procs| == |s.procs| && t.procs == s.procs[p := t.procs[p]]
    requires t.journal == s.journal && t.deadlines == s.deadlines && t.passes == s.passes && t.attempt == s.attempt
    requires WindowPc(t, t.procs[p])
    ensures Windowed(t, kept)
  {
  }

  lemma WindowedEffect(s: System, p: nat, answer: Answer, kept: bool)
    requires Windowed(s, kept) && p < |s.procs| && Fits(s.procs[p], answer)
    requires Exclusive(Effect(s, p, answer))
    ensures Windowed(Effect(s, p, answer), kept)
  {
    var pc := s.procs[p];
    if Pending(pc).Some? {
      WindowedWrite(s, p, answer.write, answer.DiedWriting?, kept);
    } else if pc.Loading? {
      LoadCases(s, p, pc.op);
      WindowedMove(s, Effect(s, p, answer), p, kept);
    } else if Preparing(pc) {
      PrepareCases(s, p, answer);
      WindowedMove(s, ActPrepare(s, p, answer), p, kept);
    } else {
      WindowedJudge(s, p, answer, kept);
    }
  }

  lemma WindowedJudge(s: System, p: nat, answer: Answer, kept: bool)
    requires Windowed(s, kept) && p < |s.procs| && Fits(s.procs[p], answer)
    requires Pending(s.procs[p]).None? && !Preparing(s.procs[p]) && !s.procs[p].Loading?
    requires Exclusive(ActJudge(s, p, answer))
    ensures Windowed(ActJudge(s, p, answer), kept)
  {
    if s.procs[p].LoadAnchor? {
      WindowedLoadAnchor(s, p, kept);
    } else {
      var t := ActJudge(s, p, answer);
      assert t.deadlines == s.deadlines;
      JudgeCases(s, p, answer);
      WindowedMove(s, t, p, kept);
    }
  }

  lemma WindowedNext(rules: Rules, s: System, l: Label, kept: bool)
    requires Windowed(s, kept) && Enabled(s, l) && Allowed(rules, s, l)
    requires kept ==> !rules.fileLoss
    ensures Windowed(Next(s, l), kept)
  {
    ExclusiveNext(s, l);
    if l.Act? {
      WindowedEffect(s, l.p, l.answer, kept);
    }
  }

  lemma {:induction false} WindowedRun(rules: Rules, s: System, ls: seq<Label>, kept: bool)
    requires Windowed(s, kept) && Run(rules, s, ls).Some?
    requires kept ==> !rules.fileLoss
    ensures Windowed(Run(rules, s, ls).value, kept)
  {
    if ls != [] {
      var n := |ls| - 1;
      WindowedRun(rules, s, ls[..n], kept);
      WindowedNext(rules, Run(rules, s, ls[..n]).value, ls[n], kept);
    }
  }

  /** Without file loss every health verification of the attempt, in whichever process and after however
      many crashes, works against one deadline: 120 seconds after the first record of a completed mutation
      or a started health phase. Every journalled pass was completed by that deadline. */
  lemma FixedHealthWindow(rules: Rules, attempt: SupervisorAttempt, processes: nat, now: int, ls: seq<Label>)
    requires !rules.fileLoss && Run(rules, Init(attempt, processes, now), ls).Some?
    ensures var s := Run(rules, Init(attempt, processes, now), ls).value;
      && (forall c, d | c in s.deadlines && d in s.deadlines :: c == d)
      && (s.deadlines != [] && !Corrupt(s.journal) ==> OnWindow(s))
      && (forall p, d | 0 <= p < |s.procs| && s.procs[p] == VerifyHealth(d) :: d in s.deadlines)
      && (forall pass <- s.passes, d <- s.deadlines :: pass.cycle.completedAt <= d)
  {
    WindowedRun(rules, Init(attempt, processes, now), ls, true);
  }

  /** The branch for a missing window anchor is never taken, under any rules. */
  lemma AnchorNeverMissing(rules: Rules, attempt: SupervisorAttempt, processes: nat, now: int, ls: seq<Label>, p: nat)
    requires Run(rules, Init(attempt, processes, now), ls).Some?
    requires p < |Run(rules, Init(attempt, processes, now), ls).value.procs|
    ensures !Run(rules, Init(attempt, processes, now), ls).value.procs[p].WriteAnchorMissing?
  {
    WindowedRun(rules, Init(attempt, processes, now), ls, false);
  }

  // ---------------------------------------------------------------- verdicts are durable

  predicate HasTerminal(lines: seq<Line>, state: RuntimeState) {
    exists i :: 0 <= i < |lines| && lines[i].Entry? && lines[i].record.event == AttemptTerminal
                && lines[i].record.detail == StateDetail(state)
  }

  predicate Decided(state: RuntimeState) {
    state == Healthy || state == Failed
  }

  /** A call that has already appended a record itself. */
  predicate Writing(pc: Pc) {
    Engaged(pc) && !pc.WriteAccepted? && !pc.WriteReconStarted? && !pc.WriteTakeoverStarted?
  }

  /** The record a verdict rests on is there, or short writes are about and no load will succeed any more. */
  predicate Backed(s: System, state: RuntimeState, whole: bool) {
    Decided(state) ==> HasTerminal(s.journal.lines, state) || (!whole && Corrupt(s.journal))
  }

  /** `whole` says that no write returns short. */
  predicate VerdictPc(s: System, pc: Pc, whole: bool) {
    && (whole && Writing(pc) ==> s.journal.terminated)
    && (pc.RecordResult? ==> Backed(s, pc.state, whole))
    && (pc.Return? && pc.verdict.State? ==> Backed(s, pc.verdict.state, whole))
  }

  predicate Durable(s: System, whole: bool) {
    Exclusive(s) && forall p :: 0 <= p < |s.procs| ==> VerdictPc(s, s.procs[p], whole)
  }

  lemma {:induction false} TerminalRecordsOccur(records: seq<Record>)
    ensures forall r <- TerminalRecords(records) :: r in records && r.event == AttemptTerminal
  {
    if records != [] {
      TerminalRecordsOccur(records[..|records| - 1]);
    }
  }

  lemma LoadedVerdictIsDurable(file: File, state: RuntimeState)
    requires !Corrupt(file) && Decided(state)
    requires TerminalState(CleanPrefix(file.lines)) == Success(state)
    ensures HasTerminal(file.lines, state)
  {
    var records := CleanPrefix(file.lines);
    TerminalRecordsOccur(records);
    var r := TerminalRecords(records)[0];
    var i :| 0 <= i < |records| && records[i] == r;
    assert file.lines[i] == Entry(r);
  }

  lemma DurableLoad(s: System, p: nat, op: Op, whole: bool)
    requires Durable(s, whole) && p < |s.procs| && s.procs[p] == Loading(op)
    ensures forall q :: 0 <= q < |s.procs| ==> VerdictPc(ActLoad(s, p, op), ActLoad(s, p, op).procs[q], whole)
  {
    LoadCases(s, p, op);
    var t := ActLoad(s, p, op);
    var state := TerminalState(CleanPrefix(s.journal.lines)).GetOr(Unknown);
    if t.procs[p].Return? && Decided(state) {
      LoadedVerdictIsDurable(s.journal, state);
    }
  }

  lemma DurableNext(rules: Rules, s: System, l: Label, whole: bool)
    requires Durable(s, whole) && Enabled(s, l) && Allowed(rules, s, l) && (whole ==> !rules.shortWrites)
    ensures Durable(Next(s, l), whole)
  {
    ExclusiveNext(s, l);
    if l.Act? {
      var pc := s.procs[l.p];
      if Pending(pc).Some? {
        DurableWrite(s, l.p, l.answer.write, l.answer.DiedWriting?, whole);
      } else if pc.Loading? {
        DurableLoad(s, l.p, pc.op, whole);
      } else if Preparing(pc) {
        PrepareCases(s, l.p, l.answer);
      } else {
        DurableJudge(s, l.p, l.answer, whole);
      }
    }
  }

  lemma DurableWrite(s: System, p: nat, write: Write, died: bool, whole: bool)
    requires Durable(s, whole) && p < |s.procs| && Pending(s.procs[p]).Some?
    requires !died ==> write != Nothing && (whole ==> write == Full)
    ensures Durable(ActWrite(s, p, write, died), whole)
  {
    var (event, detail) := Pending(s.procs[p]).value;
    var record := Record(event, s.now, detail);
    var t := ActWrite(s, p, write, died);
    var pc := s.procs[p];
    AppendCases(s.journal, record, write);
    if !died && pc.WriteTerminal? && !Corrupt(t.journal) {
      assert t.journal.lines[|s.journal.lines|] == Entry(record);
    }
    if !died && pc.WriteTerminal? && whole {
      assert t.journal.lines[|s.journal.lines|] == Entry(record);
    }
    assert forall q :: 0 <= q < |s.procs| && q != p ==> t.procs[q].Idle?;
  }

  lemma DurableJudge(s: System, p: nat, answer: Answer, whole: bool)
    requires Durable(s, whole) && p < |s.procs| && Fits(s.procs[p], answer)
    requires Pending(s.procs[p]).None? && !Preparing(s.procs[p]) && !s.procs[p].Loading?
    ensures forall q :: 0 <= q < |s.procs| ==>
      VerdictPc(ActJudge(s, p, answer), ActJudge(s, p, answer).procs[q], whole)
  {
    JudgeCases(s, p, answer);
    var t := ActJudge(s, p, answer);
    assert VerdictPc(t, t.procs[p], whole);
  }

  lemma {:induction false} DurableRun(rules: Rules, s: System, ls: seq<Label>, whole: bool)
    requires Durable(s, whole) && (whole ==> !rules.shortWrites) && Run(rules, s, ls).Some?
    ensures Durable(Run(rules, s, ls).value, whole)
  {
    if ls != [] {
      var n := |ls| - 1;
      DurableRun(rules, s, ls[..n], whole);
      DurableNext(rules, Run(rules, s, ls[..n]).value, ls[n], whole);
    }
  }

  /** Under any rules: a call that is about to return HEALTHY or FAILED finds a terminal record with that state in
      the journal, or the journal is corrupt; and it is never corrupt in that place when no write returns short. */
  lemma VerdictsAreDurableOrUnreadable(
      rules: Rules, attempt: SupervisorAttempt, processes: nat, now: int, ls: seq<Label>, p: nat, state: RuntimeState)
    requires Run(rules, Init(attempt, processes, now), ls).Some?
    requires p < |Run(rules, Init(attempt, processes, now), ls).value.procs|
    requires Run(rules, Init(attempt, processes, now), ls).value.procs[p] == Return(State(state)) && Decided(state)
    ensures var s := Run(rules, Init(attempt, processes, now), ls).value;
      HasTerminal(s.journal.lines, state) || (rules.shortWrites && Load(s.journal) == Failure("journal_corrupt"))
  {
    DurableRun(rules, Init(attempt, processes, now), ls, !rules.shortWrites);
  }

  /** Whatever operation, crash or file loss came before: when writes are whole, a call that is about to return
      HEALTHY or FAILED finds a terminal record with that state in the journal. */
  lemma VerdictsAreDurable(
      rules: Rules, attempt: SupervisorAttempt, processes: nat, now: int, ls: seq<Label>, p: nat, state: RuntimeState)
    requires !rules.shortWrites && Run(rules, Init(attempt, processes, now), ls).Some?
    requires p < |Run(rules, Init(attempt, processes, now), ls).value.procs|
    requires Run(rules, Init(attempt, processes, now), ls).value.procs[p] == Return(State(state)) && Decided(state)
    ensures HasTerminal(Run(rules, Init(attempt, processes, now), ls).value.journal.lines, state)
  {
    VerdictsAreDurableOrUnreadable(rules, attempt, processes, now, ls, p, state);
  }

  lemma CorruptNext(rules: Rules, s: System, l: Label)
    requires Corrupt(s.journal) && Enabled(s, l) && Allowed(rules, s, l) && !rules.fileLoss
    ensures Corrupt(Next(s, l).journal)
  {
    if l.Act? {
      var pc := s.procs[l.p];
      if Pending(pc).Some? {
        var (event, detail) := Pending(pc).value;
        AppendKeepsCorruption(s.journal, Record(event, s.now, detail), l.answer.write);
      } else {
        EffectFrame(s, l.p, l.answer);
      }
    }
  }

  /** A corrupt journal is never read again: as long as the file itself is not lost, every later load raises. */
  lemma {:induction false} CorruptForever(rules: Rules, s: System, ls: seq<Label>)
    requires Corrupt(s.journal) && !rules.fileLoss && Run(rules, s, ls).Some?
    ensures Load(Run(rules, s, ls).value.journal) == Failure("journal_corrupt")
  {
    if ls != [] {
      var n := |ls| - 1;
      CorruptForever(rules, s, ls[..n]);
      CorruptNext(rules, Run(rules, s, ls[..n]).value, ls[n]);
    }
  }

  /** Exactly when the terminal record of a returned append is there: the write carried the whole record, and the
      file ended in a newline before it. */
  lemma TerminalWrittenExactly(s: System, p: nat, write: Write)
    requires s.journal.Valid() && p < |s.procs| && s.procs[p].WriteTerminal? && write != Nothing
    requires !HasTerminal(s.journal.lines, s.procs[p].state)
    ensures HasTerminal(ActWrite(s, p, write, false).journal.lines, s.procs[p].state)
       <==> (write == Full || write == NoNewline) && s.journal.terminated
  {
    var (event, detail) := Pending(s.procs[p]).value;
    var record := Record(event, s.now, detail);
    var lines, longer := s.journal.lines, ActWrite(s, p, write, false).journal.lines;
    if (write == Full || write == NoNewline) && s.journal.terminated {
      assert longer[|lines|] == Entry(record);
    } else {
      assert longer[|longer| - 1] == Garbage;
      assert forall i :: 0 <= i < |longer| - 1 ==> longer[i] == lines[i];
    }
  }

  function VerdictWithoutRecord(): System -> bool {
    (s: System) => s.procs != [] && s.procs[0] == Return(State(Failed)) && !HasTerminal(s.journal.lines, Failed)
  }

  lemma RefusedMutationReturns(s: System)
    requires s.procs != [] && s.journal.terminated && !HasEvent(s.journal.lines, AttemptTerminal) && s.results == {}
    requires s.procs[0] == WriteTerminal(Failed, MutationSource)
    ensures Leads(ANYTHING, s, VerdictWithoutRecord())
  {
    TerminalWrittenExactly(s, 0, Torn);
    var t := ActWrite(s, 0, Torn, false);
    assert t.procs[0] == RecordResult(Failed, MutationSource);
    var u := ActJudge(t, 0, Ok);
    assert u.procs[0] == Return(State(Failed));
    LeadsNow(ANYTHING, u, VerdictWithoutRecord());
    LeadsThroughJudge(ANYTHING, t, 0, Ok, VerdictWithoutRecord());
    LeadsBack(ANYTHING, s, Act(0, Wrote(Torn)), VerdictWithoutRecord());
  }

  lemma RefusedSubmitReturns(s: System)
    requires AtSubmit(s)
    ensures Leads(ANYTHING, s, VerdictWithoutRecord())
  {
    var t := Next(s, Act(0, DockerRefused));
    assert t.procs[0] == WriteMutationFailed;
    var u := ActWrite(t, 0, Full, false);
    assert u.journal.lines == t.journal.lines + [Entry(Record(MutationFailed, t.now, ErrorDetail))];
    RefusedMutationReturns(u);
    LeadsThroughWrite(ANYTHING, t, 0, VerdictWithoutRecord());
    LeadsBack(ANYTHING, s, Act(0, DockerRefused), VerdictWithoutRecord());
  }

  /** The second half of VerdictsAreDurableOrUnreadable is needed: from every start a run leads to a FAILED that is
      about to be returned although its terminal record was torn by a write that returned. */
  lemma TornVerdictIsReachable(attempt: SupervisorAttempt, processes: nat, now: int)
    requires processes > 0
    ensures Leads(ANYTHING, Init(attempt, processes, now), VerdictWithoutRecord())
  {
    forall t | AtSubmit(t) ensures Leads(ANYTHING, t, VerdictWithoutRecord()) {
      RefusedSubmitReturns(t);
    }
    FirstExecuteFollows(ANYTHING, attempt, processes, now, VerdictWithoutRecord());
  }

  // ---------------------------------------------------------------- HEALTHY needs a passing cycle

  predicate HealthyPc(s: System, pc: Pc) {
    && (pc.WriteReconResult? ==> pc.seen != Healthy)
    && (pc.WriteTerminal? && pc.state == Healthy ==> s.passes != [])
    && (pc.RecordResult? && pc.state == Healthy ==> s.passes != [])
    && (pc.Return? && pc.verdict == State(Healthy) ==> s.passes != [])
  }

  predicate Earned(s: System) {
    && s.journal.Valid()
    && (HasTerminal(s.journal.lines, Healthy) ==> s.passes != [])
    && (forall p :: 0 <= p < |s.procs| ==> HealthyPc(s, s.procs[p]))
  }

  lemma EarnedWrite(s: System, p: nat, write: Write, died: bool)
    requires Earned(s) && p < |s.procs| && Pending(s.procs[p]).Some?
    requires write == Nothing ==> died
    ensures Earned(ActWrite(s, p, write, died))
  {
    var (event, detail) := Pending(s.procs[p]).value;
    var record := Record(event, s.now, detail);
    var t := ActWrite(s, p, write, died);
    if HasTerminal(t.journal.lines, Healthy) {
      var i :| 0 <= i < |t.journal.lines| && t.journal.lines[i].Entry?
               && t.journal.lines[i].record.event == AttemptTerminal
               && t.journal.lines[i].record.detail == StateDetail(Healthy);
      assert i < |s.journal.lines| ==> t.journal.lines[i] == s.journal.lines[i];
    }
    assert HealthyPc(t, t.procs[p]);
    assert forall q :: 0 <= q < |s.procs| && q != p ==> HealthyPc(t, s.procs[q]);
  }

  lemma EarnedLoad(s: System, p: nat, op: Op)
    requires Earned(s) && p < |s.procs|
    ensures Earned(ActLoad(s, p, op))
  {
    LoadCases(s, p, op);
    if ActLoad(s, p, op).procs[p] == Return(State(Healthy)) {
      LoadedVerdictIsDurable(s.journal, Healthy);
    }
  }

  lemma EarnedJudge(s: System, p: nat, answer: Answer)
    requires Earned(s) && p < |s.procs| && Fits(s.procs[p], answer)
    requires Pending(s.procs[p]).None? && !Preparing(s.procs[p]) && !s.procs[p].Loading?
    requires answer.Saw? ==> answer.view.state != Healthy
    ensures Earned(ActJudge(s, p, answer))
  {
    JudgeCases(s, p, answer);
    assert HealthyPc(ActJudge(s, p, answer), ActJudge(s, p, answer).procs[p]);
  }

  lemma EarnedNext(rules: Rules, s: System, l: Label)
    requires Earned(s) && Enabled(s, l) && Allowed(rules, s, l) && !rules.observedHealthy
    ensures Earned(Next(s, l))
  {
    if l.Act? {
      var pc := s.procs[l.p];
      if Pending(pc).Some? {
        EarnedWrite(s, l.p, l.answer.write, l.answer.DiedWriting?);
      } else if pc.Loading? {
        EarnedLoad(s, l.p, pc.op);
      } else if Preparing(pc) {
        PrepareCases(s, l.p, l.answer);
      } else {
        EarnedJudge(s, l.p, l.answer);
      }
    }
  }

  lemma {:induction false} EarnedRun(rules: Rules, s: System, ls: seq<Label>)
    requires Earned(s) && !rules.observedHealthy && Run(rules, s, ls).Some?
    ensures Earned(Run(rules, s, ls).value)
  {
    if ls != [] {
      var n := |ls| - 1;
      EarnedRun(rules, s, ls[..n]);
      EarnedNext(rules, Run(rules, s, ls[..n]).value, ls[n]);
    }
  }

  lemma {:induction false} AttemptFixed(rules: Rules, s: System, ls: seq<Label>)
    requires Run(rules, s, ls).Some?
    ensures Run(rules, s, ls).value.attempt == s.attempt
  {
    if ls != [] {
      var n := |ls| - 1;
      AttemptFixed(rules, s, ls[..n]);
      if ls[n].Act? {
        EffectFrame(Run(rules, s, ls[..n]).value, ls[n].p, ls[n].answer);
      }
    }
  }

  /** With a runtime whose observations never claim HEALTHY, that verdict is returned only after a polled
      cycle met the whole health contract by its deadline. */
  lemma HealthyNeedsPassingCycle(
      rules: Rules, attempt: SupervisorAttempt, processes: nat, now: int, ls: seq<Label>, p: nat)
    requires !rules.observedHealthy && Run(rules, Init(attempt, processes, now), ls).Some?
    requires p < |Run(rules, Init(attempt, processes, now), ls).value.procs|
    requires Run(rules, Init(attempt, processes, now), ls).value.procs[p] == Return(State(Healthy))
    ensures exists pass <- Run(rules, Init(attempt, processes, now), ls).value.passes ::
      Passes(attempt, pass.cycle, pass.deadline)
  {
    var s := Init(attempt, processes, now);
    EarnedRun(rules, s, ls);
    WindowedRun(rules, s, ls, false);
    AttemptFixed(rules, s, ls);
    var t := Run(rules, s, ls).value;
    assert HealthyPc(t, t.procs[p]);
    assert SoundPass(t, t.passes[0]);
  }
}
