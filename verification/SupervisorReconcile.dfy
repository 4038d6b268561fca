/** reconcile does not look for an existing terminal record: exactly what that costs. */
module SupervisorReconcile {
  import opened Wrappers
  import opened HealthContract
  import opened Journal
  import opened SupervisorProtocol
  import opened SupervisorSafety
  import opened SupervisorVerdicts

  function TerminalLines(lines: seq<Line>): nat {
    if lines == [] then 0
    else
      var last := lines[|lines| - 1];
      TerminalLines(lines[..|lines| - 1]) + (if last.Entry? && last.record.event == AttemptTerminal then 1 else 0)
  }

  lemma TerminalLinesAppend(lines: seq<Line>, line: Line)
    ensures TerminalLines(lines + [line]) ==
      TerminalLines(lines) + (if line.Entry? && line.record.event == AttemptTerminal then 1 else 0)
  {
    assert (lines + [line])[..|lines|] == lines;
  }

  lemma TerminalLinesWrite(file: File, record: Record, write: Write)
    requires file.Valid()
    ensures TerminalLines(Append(file, record, write).lines)
         <= TerminalLines(file.lines) + (if record.event == AttemptTerminal then 1 else 0)
  {
    if write == Nothing {
    } else if file.terminated {
      TerminalLinesAppend(file.lines, if write == Torn then Garbage else Entry(record));
    } else {
      TerminalLinesAppend(file.lines[..|file.lines| - 1], Garbage);
    }
  }

  lemma {:induction false} NoTerminalLine(lines: seq<Line>)
    requires !HasEvent(lines, AttemptTerminal)
    ensures TerminalLines(lines) == 0
  {
    if lines != [] {
      NoTerminalLine(lines[..|lines| - 1]);
    }
  }

  lemma {:induction false} TerminalRecordsCount(records: seq<Record>, lines: seq<Line>)
    requires |records| == |lines| && forall i :: 0 <= i < |records| ==> lines[i] == Entry(records[i])
    ensures |TerminalRecords(records)| == TerminalLines(lines)
  {
    if records != [] {
      TerminalRecordsCount(records[..|records| - 1], lines[..|lines| - 1]);
    }
  }

  /** A call that may still write a terminal record. */
  predicate MayConclude(pc: Pc) {
    !pc.Idle? && !pc.Loading? && !pc.RecordResult? && !pc.WriteDbDisconnected? && !pc.Return?
    && !pc.Raising?
    && !pc.WriteTakeoverStarted? && !pc.ObserveFirst? && !pc.ObserveSecond? && !pc.WriteTakeoverResult?
  }

  predicate Concluded(s: System) {
    && Exclusive(s)
    && TerminalLines(s.journal.lines) <= 1
    && forall p :: 0 <= p < |s.procs| && MayConclude(s.procs[p]) ==> TerminalLines(s.journal.lines) == 0
  }

  lemma ConcludedWrite(s: System, p: nat, write: Write, died: bool)
    requires Concluded(s) && p < |s.procs| && Pending(s.procs[p]).Some?
    requires Exclusive(ActWrite(s, p, write, died))
    ensures Concluded(ActWrite(s, p, write, died))
  {
    var (event, detail) := Pending(s.procs[p]).value;
    TerminalLinesWrite(s.journal, Record(event, s.now, detail), write);
    var t := ActWrite(s, p, write, died);
    assert t.procs == s.procs[p := t.procs[p]];
    assert forall q :: 0 <= q < |s.procs| && q != p ==> s.procs[q].Idle?;
  }

  lemma ConcludedLoad(rules: Rules, s: System, p: nat)
    requires Concluded(s) && p < |s.procs| && s.procs[p].Loading? && !rules.reconcileAfterTerminal
    requires Allowed(rules, s, Act(p, Ok))
    requires Exclusive(ActLoad(s, p, s.procs[p].op))
    ensures Concluded(ActLoad(s, p, s.procs[p].op))
  {
    LoadCases(s, p, s.procs[p].op);
    var records := CleanPrefix(s.journal.lines);
    if !Corrupt(s.journal) {
      TerminalRecordsCount(records, s.journal.lines);
    }
    if !HasEvent(s.journal.lines, AttemptTerminal) {
      NoTerminalLine(s.journal.lines);
    }
  }

  lemma ConcludedJudge(s: System, p: nat, answer: Answer)
    requires Concluded(s) && p < |s.procs| && Fits(s.procs[p], answer)
    requires Pending(s.procs[p]).None? && !Preparing(s.procs[p]) && !s.procs[p].Loading?
    requires Exclusive(ActJudge(s, p, answer))
    ensures Concluded(ActJudge(s, p, answer))
  {
    JudgeCases(s, p, answer);
    var t := ActJudge(s, p, answer);
    assert MayConclude(t.procs[p]) ==> MayConclude(s.procs[p]);
  }

  lemma ConcludedNext(rules: Rules, s: System, l: Label)
    requires Concluded(s) && Enabled(s, l) && Allowed(rules, s, l) && !rules.reconcileAfterTerminal
    ensures Concluded(Next(s, l))
  {
    ExclusiveNext(s, l);
    if l.Act? {
      var pc := s.procs[l.p];
      if Pending(pc).Some? {
        ConcludedWrite(s, l.p, l.answer.write, l.answer.DiedWriting?);
      } else if pc.Loading? {
        if l.answer == Ok {
          ConcludedLoad(rules, s, l.p);
        }
      } else if Preparing(pc) {
        PrepareCases(s, l.p, l.answer);
      } else {
        ConcludedJudge(s, l.p, l.answer);
      }
    }
  }

  lemma {:induction false} ConcludedRun(rules: Rules, s: System, ls: seq<Label>)
    requires Concluded(s) && !rules.reconcileAfterTerminal && Run(rules, s, ls).Some?
    ensures Concluded(Run(rules, s, ls).value)
  {
    if ls != [] {
      var n := |ls| - 1;
      ConcludedRun(rules, s, ls[..n]);
      ConcludedNext(rules, Run(rules, s, ls[..n]).value, ls[n]);
    }
  }

  /** As long as reconcile is not called on a journal with a terminal record - all operations, crashes, short
      writes and file loss included - the journal never holds two terminal records. */
  lemma OneTerminalRecord(rules: Rules, attempt: SupervisorAttempt, processes: nat, now: int, ls: seq<Label>)
    requires !rules.reconcileAfterTerminal
    requires Run(rules, Init(attempt, processes, now), ls).Some?
    ensures TerminalLines(Run(rules, Init(attempt, processes, now), ls).value.journal.lines) <= 1
  {
    ConcludedRun(rules, Init(attempt, processes, now), ls);
  }

  // ---------------------------------------------------------------- and what happens otherwise

  /** No call is running, the journal reads well, and it holds two terminal records. */
  function TwoTerminals(): System -> bool {
    (s: System) => !Corrupt(s.journal) && AllIdle(s) && |TerminalRecords(CleanPrefix(s.journal.lines))| >= 2
         && TerminalState(CleanPrefix(s.journal.lines)) == Failure("journal_terminal_ambiguous")
  }

  lemma TerminalRecordsKept(lines: seq<Line>, record: Record)
    requires Garbage !in lines && TerminalRecords(CleanPrefix(lines)) != []
    ensures TerminalRecords(CleanPrefix(lines + [Entry(record)])) != []
    ensures record.event == AttemptTerminal ==>
      && |TerminalRecords(CleanPrefix(lines + [Entry(record)]))| >= 2
      && TerminalState(CleanPrefix(lines + [Entry(record)])) == Failure("journal_terminal_ambiguous")
  {
    CleanPrefixOfClean(lines, Entry(record));
    var records := CleanPrefix(lines);
    assert (records + [record])[..|records|] == records;
  }

  /** A readable journal with a terminal record, and process 0 inside the lock about to write to it. */
  predicate Again(s: System, pc: Pc) {
    && s.procs != [] && s.procs[0] == pc && s.holder == Some(0)
    && (forall p :: 0 < p < |s.procs| ==> s.procs[p].Idle?)
    && !Corrupt(s.journal) && s.journal.terminated && TerminalRecords(CleanPrefix(s.journal.lines)) != []
  }

  lemma FullWrite(s: System, p: nat)
    requires p < |s.procs| && Pending(s.procs[p]).Some? && s.journal.Valid() && s.journal.terminated
    ensures var t, (event, detail) := ActWrite(s, p, Full, false), Pending(s.procs[p]).value;
      && t.journal.terminated && t.journal.lines == s.journal.lines + [Entry(Record(event, s.now, detail))]
      && t.procs == s.procs[p := AfterWrite(s.procs[p])] && t.holder == s.holder
  {
  }

  lemma AgainWrite(s: System, pc: Pc)
    requires Again(s, pc) && Pending(pc).Some?
    ensures Again(ActWrite(s, 0, Full, false), AfterWrite(pc))
  {
    var (event, detail) := Pending(pc).value;
    FullWrite(s, 0);
    TerminalRecordsKept(s.journal.lines, Record(event, s.now, detail));
  }

  lemma AgainTerminal(s: System, pc: Pc)
    requires Again(s, pc) && pc.WriteTerminal?
    ensures var records := CleanPrefix(ActWrite(s, 0, Full, false).journal.lines);
      |TerminalRecords(records)| >= 2 && TerminalState(records) == Failure("journal_terminal_ambiguous")
  {
    FullWrite(s, 0);
    TerminalRecordsKept(s.journal.lines, Record(AttemptTerminal, s.now, StateDetail(pc.state)));
  }

  lemma SecondTerminal(rules: Rules, s: System)
    requires Again(s, WriteTerminal(Failed, ReconciliationSource))
    ensures Leads(rules, s, TwoTerminals())
  {
    AgainWrite(s, s.procs[0]);
    AgainTerminal(s, s.procs[0]);
    var t := ActWrite(s, 0, Full, false);
    LeadsNow(rules, Leave(t, 0), TwoTerminals());
    LeadsBack(rules, t, Crash(0), TwoTerminals());
    LeadsThroughWrite(rules, s, 0, TwoTerminals());
  }

  lemma ResultReachesTerminal(rules: Rules, s: System)
    requires Again(s, WriteReconResult(Failed))
    ensures Leads(rules, s, TwoTerminals())
  {
    AgainWrite(s, s.procs[0]);
    SecondTerminal(rules, ActWrite(s, 0, Full, false));
    LeadsThroughWrite(rules, s, 0, TwoTerminals());
  }

  lemma ObservationReachesTerminal(rules: Rules, s: System)
    requires Again(s, Observe)
    ensures Leads(rules, s, TwoTerminals())
  {
    var view := Saw(Snapshot(Failed, false, false, 0), false);
    var t := ActJudge(s, 0, view);
    assert t == Goto(s, 0, WriteReconResult(Failed));
    ResultReachesTerminal(rules, t);
    LeadsThroughJudge(rules, s, 0, view, TwoTerminals());
  }

  lemma ReconcileReachesTerminal(rules: Rules, s: System)
    requires Again(s, WriteReconStarted)
    ensures Leads(rules, s, TwoTerminals())
  {
    AgainWrite(s, s.procs[0]);
    ObservationReachesTerminal(rules, ActWrite(s, 0, Full, false));
    LeadsThroughWrite(rules, s, 0, TwoTerminals());
  }

  /** The restriction is needed: from any finished attempt one further reconcile can lead to a journal on
      which every later execute raises journal_terminal_ambiguous. */
  lemma ReconcileAfterTerminalIsAmbiguous(rules: Rules, s: System)
    requires Reconcile in rules.ops && rules.reconcileAfterTerminal
    requires AllIdle(s) && s.procs != [] && !Corrupt(s.journal) && s.journal.terminated
    requires TerminalRecords(CleanPrefix(s.journal.lines)) != []
    ensures Leads(rules, s, TwoTerminals())
  {
    var t := Next(s, Begin(0, Reconcile));
    var u := Next(t, Act(0, Ok));
    assert u == Goto(t, 0, WriteReconStarted);
    ReconcileReachesTerminal(rules, u);
    LeadsBack(rules, t, Act(0, Ok), TwoTerminals());
    LeadsBack(rules, s, Begin(0, Reconcile), TwoTerminals());
  }

  lemma ConcludedIsSingle(s: System)
    requires Concluded(s)
    ensures !TwoTerminals()(s)
  {
    if !Corrupt(s.journal) {
      TerminalRecordsCount(CleanPrefix(s.journal.lines), s.journal.lines);
    }
  }

  predicate OpsAllowed(rules: Rules, s: System) {
    forall p :: 0 <= p < |s.procs| && s.procs[p].Loading? ==> s.procs[p].op in rules.ops
  }

  /** Where reconcile cannot be called at all, the rule about it is met by itself. */
  lemma {:induction false} NoReconcileRun(rules: Rules, s: System, ls: seq<Label>)
    requires OpsAllowed(rules, s) && Reconcile !in rules.ops && Run(rules, s, ls).Some?
    ensures OpsAllowed(rules, Run(rules, s, ls).value)
    ensures Run(rules.(reconcileAfterTerminal := false), s, ls) == Run(rules, s, ls)
  {
    if ls != [] {
      var n := |ls| - 1;
      NoReconcileRun(rules, s, ls[..n]);
      if ls[n].Act? {
        EffectFrame(Run(rules, s, ls[..n]).value, ls[n].p, ls[n].answer);
      }
    }
  }

  /** A file that does not end in a newline stays as it is or becomes unreadable. */
  predicate Stuck(file: File, s: System) {
    s.journal.Valid() && (s.journal == file || Corrupt(s.journal))
  }

  lemma StuckNext(rules: Rules, file: File, s: System, l: Label)
    requires Stuck(file, s) && !file.terminated && Enabled(s, l) && Allowed(rules, s, l) && !rules.fileLoss
    ensures Stuck(file, Next(s, l))
  {
    if l.Act? {
      var pc := s.procs[l.p];
      if Pending(pc).Some? {
        var (event, detail) := Pending(pc).value;
        var record := Record(event, s.now, detail);
        if Corrupt(s.journal) {
          AppendKeepsCorruption(s.journal, record, l.answer.write);
        } else if l.answer.write != Nothing {
          assert Append(file, record, l.answer.write).lines[|file.lines| - 1] == Garbage;
        }
      } else if pc.Loading? && l.answer == Ok {
        LoadCases(s, l.p, pc.op);
      } else if !pc.Loading? && !Preparing(pc) {
        JudgeCases(s, l.p, l.answer);
      }
    }
  }

  lemma {:induction false} StuckRun(rules: Rules, file: File, s: System, ls: seq<Label>)
    requires Stuck(file, s) && !file.terminated && !rules.fileLoss && Run(rules, s, ls).Some?
    ensures Stuck(file, Run(rules, s, ls).value)
  {
    if ls != [] {
      var n := |ls| - 1;
      StuckRun(rules, file, s, ls[..n]);
      StuckNext(rules, file, Run(rules, s, ls[..n]).value, ls[n]);
    }
  }

  /** Nothing leads to an ambiguous journal unless reconcile may be called on a finished one that ends in a newline. */
  lemma SingleStaysSingle(rules: Rules, s: System, ls: seq<Label>)
    requires AllIdle(s) && s.journal.Valid() && !Corrupt(s.journal)
    requires |TerminalRecords(CleanPrefix(s.journal.lines))| == 1
    requires Reconcile in rules.ops && rules.reconcileAfterTerminal ==> !s.journal.terminated && !rules.fileLoss
    requires Run(rules, s, ls).Some?
    ensures !TwoTerminals()(Run(rules, s, ls).value)
  {
    TerminalRecordsCount(CleanPrefix(s.journal.lines), s.journal.lines);
    if !rules.reconcileAfterTerminal {
      ConcludedRun(rules, s, ls);
      ConcludedIsSingle(Run(rules, s, ls).value);
    } else if Reconcile !in rules.ops {
      NoReconcileRun(rules, s, ls);
      ConcludedRun(rules.(reconcileAfterTerminal := false), s, ls);
      ConcludedIsSingle(Run(rules, s, ls).value);
    } else {
      StuckRun(rules, s.journal, s, ls);
    }
  }

  /** Both halves together: from every finished attempt, whatever run finished it, the operations allowed from now on
      can lead to an ambiguous journal if and only if reconcile may be called on it and the file ends in a newline. */
  lemma AmbiguousExactlyByReconcile(
    before: Rules, after: Rules, attempt: SupervisorAttempt, processes: nat, now: int, ls: seq<Label>)
    requires Run(before, Init(attempt, processes, now), ls).Some?
    requires var s := Run(before, Init(attempt, processes, now), ls).value;
      && AllIdle(s) && s.procs != [] && !Corrupt(s.journal)
      && |TerminalRecords(CleanPrefix(s.journal.lines))| == 1
      && (after.fileLoss ==> s.journal.terminated)
    ensures var s := Run(before, Init(attempt, processes, now), ls).value;
      Leads(after, s, TwoTerminals()) <==>
        Reconcile in after.ops && after.reconcileAfterTerminal && s.journal.terminated
  {
    var s := Run(before, Init(attempt, processes, now), ls).value;
    ExclusiveRun(before, Init(attempt, processes, now), ls);
    if Reconcile in after.ops && after.reconcileAfterTerminal && s.journal.terminated {
      ReconcileAfterTerminalIsAmbiguous(after, s);
    } else {
      forall more | Run(after, s, more).Some? ensures !TwoTerminals()(Run(after, s, more).value) {
        SingleStaysSingle(after, s, more);
      }
    }
  }

  // ---------------------------------------------------------------- the failing input is one the code can meet

  function Finished(): System -> bool {
    (s: System) => AllIdle(s) && s.procs != [] && !Corrupt(s.journal) && s.journal.terminated
         && TerminalRecords(CleanPrefix(s.journal.lines)) != []
  }

  lemma RefusedMutationFinishes(s: System)
    requires s.procs != [] && s.holder == Some(0) && (forall p :: 0 < p < |s.procs| ==> s.procs[p].Idle?)
    requires s.journal.terminated && !Corrupt(s.journal) && s.procs[0] == WriteTerminal(Failed, MutationSource)
    ensures Leads(ANYTHING, s, Finished())
  {
    var t := ActWrite(s, 0, Full, false);
    var record := Record(AttemptTerminal, s.now, StateDetail(Failed));
    FullWrite(s, 0);
    CleanPrefixOfClean(s.journal.lines, Entry(record));
    var records := CleanPrefix(s.journal.lines);
    assert (records + [record])[..|records|] == records;
    LeadsNow(ANYTHING, Leave(t, 0), Finished());
    LeadsBack(ANYTHING, t, Crash(0), Finished());
    LeadsThroughWrite(ANYTHING, s, 0, Finished());
  }

  lemma RefusedSubmitFinishes(s: System)
    requires AtSubmit(s)
    ensures Leads(ANYTHING, s, Finished())
  {
    var t := Next(s, Act(0, DockerRefused));
    assert t.procs[0] == WriteMutationFailed;
    FullWrite(t, 0);
    RefusedMutationFinishes(ActWrite(t, 0, Full, false));
    LeadsThroughWrite(ANYTHING, t, 0, Finished());
    LeadsBack(ANYTHING, s, Act(0, DockerRefused), Finished());
  }

  /** From every start some run of all three operations ends on a journal whose terminal state is ambiguous. */
  lemma AmbiguityIsReachable(attempt: SupervisorAttempt, processes: nat, now: int)
    requires processes > 0
    ensures Leads(ANYTHING, Init(attempt, processes, now), TwoTerminals())
  {
    var s := Init(attempt, processes, now);
    forall t | AtSubmit(t) ensures Leads(ANYTHING, t, Finished()) {
      RefusedSubmitFinishes(t);
    }
    FirstExecuteFollows(ANYTHING, attempt, processes, now, Finished());
    forall t | Finished()(t) ensures Leads(ANYTHING, t, TwoTerminals()) {
      ReconcileAfterTerminalIsAmbiguous(ANYTHING, t);
    }
    LeadsThrough(ANYTHING, s, Finished(), TwoTerminals());
  }
}
