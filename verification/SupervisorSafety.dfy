/** At most one Docker mutation: over every interleaving, with crashes, torn and short journal writes,
    and - as long as no reconciliation writes into a journal that was lost - loss of the whole file. */
module SupervisorSafety {
  import opened Wrappers
  import opened HealthContract
  import opened Journal
  import opened SupervisorProtocol

  /** flock: exactly the holder is inside a supervisor call. */
  predicate MutualExclusion(s: System) {
    forall p :: 0 <= p < |s.procs| ==> (!s.procs[p].Idle? <==> s.holder == Some(p))
  }

  predicate Shown(s: System, event: Event) {
    HasEvent(s.journal.lines, event) || Corrupt(s.journal)
  }

  /** Still on the way to the mutation, the submission included. */
  predicate BeforeSubmission(pc: Pc) {
    pc.WriteAccepted? || pc.ValidatePlan? || pc.CollectResources? || pc.RecordResource? || pc.RecordMarker?
    || pc.WriteSubmitted? || pc.Submit?
  }

  /** A call that has read the journal and may still append to it. */
  predicate Engaged(pc: Pc) {
    !pc.Idle? && !pc.Loading? && !pc.CheckMarker? && !pc.Return? && !pc.Raising?
  }

  predicate SafePc(s: System, pc: Pc) {
    && (BeforeSubmission(pc) ==> s.submits == 0)
    && (Engaged(pc) && s.submits > 0 ==> Shown(s, MutationSubmitted))
    && (pc.RecordMarker? ==> s.resourceRows > 0)
    && (pc.WriteSubmitted? || pc.Submit? ==> s.marker)
    && (pc.Submit? ==> Shown(s, MutationSubmitted))
  }

  /** submitted => MUTATION_SUBMITTED journalled => database marker => passing resource row. */
  predicate Safe(s: System) {
    && s.journal.Valid()
    && MutualExclusion(s)
    && s.submits <= 1
    && (s.submits > 0 ==> s.marker && (s.journal.lines == [] || Shown(s, MutationSubmitted)))
    && (HasEvent(s.journal.lines, MutationSubmitted) ==> s.marker)
    && (s.marker ==> s.resourceRows > 0)
    && (forall p :: 0 <= p < |s.procs| ==> SafePc(s, s.procs[p]))
  }

  lemma SafeWrite(s: System, p: nat, write: Write, died: bool)
    requires Safe(s) && p < |s.procs| && Pending(s.procs[p]).Some?
    requires write == Nothing ==> died
    ensures Safe(ActWrite(s, p, write, died))
  {
    var (event, detail) := Pending(s.procs[p]).value;
    var record := Record(event, s.now, detail);
    var t := ActWrite(s, p, write, died);
    if Shown(s, MutationSubmitted) {
      AppendKeepsEvent(s.journal, record, write, MutationSubmitted);
    }
    if event == MutationSubmitted && write != Nothing {
      AppendShowsItsEvent(s.journal, record, write);
    }
    if event != MutationSubmitted && !HasEvent(s.journal.lines, MutationSubmitted) {
      AppendAddsOnlyItsEvent(s.journal, record, write, MutationSubmitted);
    }
  }

  /** The running process moves on without touching the journal; nobody else is inside a call. */
  lemma SafeMove(s: System, t: System, p: nat)
    requires Safe(s) && p < |s.procs| && !s.procs[p].Idle?
    requires |t.procs| == |s.procs| && t.procs == s.procs[p := t.procs[p]]
    requires t.holder == if t.procs[p].Idle? then None else s.holder
    requires t.journal == s.journal && t.submits <= 1
    requires t.submits > 0 ==> t.marker && (t.journal.lines == [] || Shown(t, MutationSubmitted))
    requires (s.marker ==> t.marker) && (t.marker ==> t.resourceRows > 0)
    requires SafePc(t, t.procs[p])
    ensures Safe(t)
  {
  }

  /** Loading decides from the journal alone and touches nothing but the program counter. */
  lemma LoadCases(s: System, p: nat, op: Op)
    requires p < |s.procs|
    ensures var t := ActLoad(s, p, op);
      var pc := t.procs[p];
      && t == s.(procs := s.procs[p := pc])
      && (pc.Raising?
          || pc in {WriteReconStarted, WriteTakeoverStarted, CheckMarker, WriteAccepted,
                    Return(State(TerminalState(CleanPrefix(s.journal.lines)).GetOr(Unknown)))})
      && (pc.CheckMarker? ==> op == Execute && s.journal.lines == [])
      && (pc.WriteAccepted? ==>
            op == Execute && s.journal.lines != [] && !Shown(s, MutationSubmitted))
      && (pc.WriteTakeoverStarted? ==> op == Takeover)
      && (pc.WriteReconStarted? ==> op == Reconcile || (op == Execute && Shown(s, MutationSubmitted)))
  {
    var records := CleanPrefix(s.journal.lines);
    assert records == [] && !Corrupt(s.journal) ==> s.journal.lines == [];
  }

  lemma SafeLoad(rules: Rules, s: System, p: nat)
    requires Safe(s) && p < |s.procs| && s.procs[p].Loading?
    requires Allowed(rules, s, Act(p, Ok)) && !rules.appendToLostJournal
    ensures Safe(ActLoad(s, p, s.procs[p].op))
  {
    var t := ActLoad(s, p, s.procs[p].op);
    LoadCases(s, p, s.procs[p].op);
    assert SafePc(t, t.procs[p]);
    SafeMove(s, t, p);
  }

  lemma SafePrepare(s: System, p: nat, answer: Answer)
    requires Safe(s) && p < |s.procs| && Fits(s.procs[p], answer) && Preparing(s.procs[p])
    ensures Safe(ActPrepare(s, p, answer))
  {
    SafeMove(s, ActPrepare(s, p, answer), p);
  }

  /** After the mutation, a step without a journal write changes none of the facts the safety argument uses. */
  lemma JudgeCases(s: System, p: nat, answer: Answer)
    requires p < |s.procs| && Fits(s.procs[p], answer)
    requires Pending(s.procs[p]).None? && !Preparing(s.procs[p]) && !s.procs[p].Loading?
    ensures var t := ActJudge(s, p, answer);
      var pc := t.procs[p];
      && t == s.(procs := s.procs[p := pc], holder := t.holder, outcomes := t.outcomes,
                 deadlines := t.deadlines, results := t.results)
      && t.holder == (if pc.Idle? && s.holder == Some(p) then None else s.holder)
      && !BeforeSubmission(pc) && !pc.CheckMarker? && !pc.Loading?
      && (Engaged(pc) ==> Engaged(s.procs[p]))
  {
  }

  lemma PrepareCases(s: System, p: nat, answer: Answer)
    requires p < |s.procs| && Fits(s.procs[p], answer) && Preparing(s.procs[p])
    ensures var t := ActPrepare(s, p, answer);
      var pc := t.procs[p];
      && t == s.(procs := s.procs[p := pc],
                 resourceRows := t.resourceRows, marker := t.marker, submits := t.submits)
      && (pc.Raising? || pc.WriteDbDisconnected? || pc.WriteCompleted? || pc.WriteMutationFailed?
          || pc.WriteReconStarted? || BeforeSubmission(pc))
      && (pc.WriteDbDisconnected? ==> s.procs[p].RecordResource? || s.procs[p].RecordMarker?)
      && (pc.WriteAccepted? ==> s.procs[p].CheckMarker?)
  {
  }

  /** A step concerns its own process, frees the lock if and only if the call is over, and never
      changes the attempt or the clock. */
  lemma EffectFrame(s: System, p: nat, answer: Answer)
    requires p < |s.procs| && Fits(s.procs[p], answer) && s.journal.Valid()
    ensures var t := Effect(s, p, answer);
      && t.procs == s.procs[p := t.procs[p]]
      && t.attempt == s.attempt && t.now == s.now && t.journal.Valid()
      && t.holder == (if t.procs[p].Idle? && s.holder == Some(p) then None else s.holder)
      && !t.procs[p].Loading?
  {
    var pc := s.procs[p];
    if Pending(pc).Some? {
    } else if pc.Loading? {
      LoadCases(s, p, pc.op);
    } else if Preparing(pc) {
      PrepareCases(s, p, answer);
    } else {
      JudgeCases(s, p, answer);
    }
  }

  lemma SafeJudge(s: System, p: nat, answer: Answer)
    requires Safe(s) && p < |s.procs| && Fits(s.procs[p], answer)
    requires Pending(s.procs[p]).None? && !Preparing(s.procs[p]) && !s.procs[p].Loading?
    ensures Safe(ActJudge(s, p, answer))
  {
    JudgeCases(s, p, answer);
    SafeMove(s, ActJudge(s, p, answer), p);
  }

  lemma SafeEffect(rules: Rules, s: System, p: nat, answer: Answer)
    requires Safe(s) && Enabled(s, Act(p, answer)) && Allowed(rules, s, Act(p, answer)) && !rules.appendToLostJournal
    ensures Safe(Effect(s, p, answer))
  {
    var pc := s.procs[p];
    if Pending(pc).Some? {
      SafeWrite(s, p, answer.write, answer.DiedWriting?);
    } else if pc.Loading? {
      if answer == Ok {
        SafeLoad(rules, s, p);
      } else {
        SafeMove(s, Effect(s, p, answer), p);
      }
    } else if Preparing(pc) {
      SafePrepare(s, p, answer);
    } else {
      SafeJudge(s, p, answer);
    }
  }

  lemma SafeNext(rules: Rules, s: System, l: Label)
    requires Safe(s) && Enabled(s, l) && Allowed(rules, s, l) && !rules.appendToLostJournal
    ensures Safe(Next(s, l))
  {
    if l.Act? {
      SafeEffect(rules, s, l.p, l.answer);
    }
  }

  lemma {:induction false} SafeRun(rules: Rules, s: System, ls: seq<Label>)
    requires Safe(s) && Run(rules, s, ls).Some? && !rules.appendToLostJournal
    ensures Safe(Run(rules, s, ls).value)
  {
    if ls != [] {
      var n := |ls| - 1;
      SafeRun(rules, s, ls[..n]);
      SafeNext(rules, Run(rules, s, ls[..n]).value, ls[n]);
    }
  }

  // ---------------------------------------------------------------- mutual exclusion under any rules

  predicate Exclusive(s: System) {
    s.journal.Valid() && MutualExclusion(s)
  }

  lemma ExclusiveNext(s: System, l: Label)
    requires Exclusive(s) && Enabled(s, l)
    ensures Exclusive(Next(s, l))
  {
    if l.Act? {
      EffectFrame(s, l.p, l.answer);
    }
  }

  lemma {:induction false} ExclusiveRun(rules: Rules, s: System, ls: seq<Label>)
    requires Exclusive(s) && Run(rules, s, ls).Some?
    ensures Exclusive(Run(rules, s, ls).value)
  {
    if ls != [] {
      var n := |ls| - 1;
      ExclusiveRun(rules, s, ls[..n]);
      ExclusiveNext(Run(rules, s, ls[..n]).value, ls[n]);
    }
  }

  // ---------------------------------------------------------------- at most one mutation

  lemma InitSafe(attempt: SupervisorAttempt, processes: nat, now: int)
    ensures Safe(Init(attempt, processes, now))
  {
  }

  /** While no reconcile or takeover goes ahead on a lost journal, runtime.submit is called at most once,
      whatever crashes, torn or short writes, failing rows and file losses happen in between. */
  lemma AtMostOneMutation(rules: Rules, attempt: SupervisorAttempt, processes: nat, now: int, ls: seq<Label>)
    requires !rules.appendToLostJournal
    requires Run(rules, Init(attempt, processes, now), ls).Some?
    ensures var s := Run(rules, Init(attempt, processes, now), ls).value;
      && s.submits <= 1
      && MutualExclusion(s)
      && (s.submits > 0 ==> s.marker && (s.journal.lines == [] || Shown(s, MutationSubmitted)))
      && (HasEvent(s.journal.lines, MutationSubmitted) ==> s.marker)
      && (s.marker ==> s.resourceRows > 0)
  {
    InitSafe(attempt, processes, now);
    SafeRun(rules, Init(attempt, processes, now), ls);
  }

  /** The journal is not lost: whoever is past its first append, and the marker, imply a journal. */
  predicate Kept(s: System) {
    && s.journal.Valid()
    && (s.marker ==> s.journal.lines != [])
    && (forall p :: 0 <= p < |s.procs| && BeforeSubmission(s.procs[p]) && !s.procs[p].WriteAccepted? ==>
          s.journal.lines != [])
  }

  lemma KeptNext(rules: Rules, s: System, l: Label)
    requires Kept(s) && Enabled(s, l) && Allowed(rules, s, l) && !rules.fileLoss
    ensures Kept(Next(s, l))
    ensures Allowed(rules.(appendToLostJournal := false), s, l)
  {
    var t := Next(s, l);
    if l.Act? {
      var pc := s.procs[l.p];
      if Pending(pc).Some? {
        var (event, detail) := Pending(pc).value;
        AppendCases(s.journal, Record(event, s.now, detail), l.answer.write);
      } else if pc.Loading? && l.answer == Ok {
        LoadCases(s, l.p, pc.op);
      } else if !pc.Loading? && !Preparing(pc) {
        JudgeCases(s, l.p, l.answer);
      }
    }
  }

  /** Without file loss the restriction on reconcile and takeover is met by itself. */
  lemma {:induction false} KeptRun(rules: Rules, s: System, ls: seq<Label>)
    requires Kept(s) && !rules.fileLoss && Run(rules, s, ls).Some?
    ensures Kept(Run(rules, s, ls).value)
    ensures Run(rules.(appendToLostJournal := false), s, ls) == Run(rules, s, ls)
  {
    if ls != [] {
      var n := |ls| - 1;
      KeptRun(rules, s, ls[..n]);
      KeptNext(rules, Run(rules, s, ls[..n]).value, ls[n]);
    }
  }

  /** Every operation, every crash and torn write, no file loss: at most one mutation. */
  lemma AtMostOneMutationWithoutFileLoss(
      rules: Rules, attempt: SupervisorAttempt, processes: nat, now: int, ls: seq<Label>)
    requires !rules.fileLoss
    requires Run(rules, Init(attempt, processes, now), ls).Some?
    ensures var s := Run(rules, Init(attempt, processes, now), ls).value;
      && s.submits <= 1
      && (s.submits > 0 ==> Shown(s, MutationSubmitted))
  {
    KeptRun(rules, Init(attempt, processes, now), ls);
    AtMostOneMutation(rules.(appendToLostJournal := false), attempt, processes, now, ls);
  }

  predicate OnlyExecutes(s: System) {
    forall p :: 0 <= p < |s.procs| && s.procs[p].Loading? ==> s.procs[p].op == Execute
  }

  lemma {:induction false} ExecuteOnlyRun(rules: Rules, s: System, ls: seq<Label>)
    requires OnlyExecutes(s) && rules.ops == {Execute} && Run(rules, s, ls).Some?
    ensures OnlyExecutes(Run(rules, s, ls).value)
    ensures Run(rules.(appendToLostJournal := false), s, ls) == Run(rules, s, ls)
  {
    if ls != [] {
      var n := |ls| - 1;
      ExecuteOnlyRun(rules, s, ls[..n]);
      if ls[n].Act? {
        EffectFrame(Run(rules, s, ls[..n]).value, ls[n].p, ls[n].answer);
      }
    }
  }

  /** Journal-loss safety: with execute alone, losing the whole file never leads to a second mutation. */
  lemma AtMostOneMutationDespiteFileLoss(
      rules: Rules, attempt: SupervisorAttempt, processes: nat, now: int, ls: seq<Label>)
    requires rules.ops == {Execute}
    requires Run(rules, Init(attempt, processes, now), ls).Some?
    ensures Run(rules, Init(attempt, processes, now), ls).value.submits <= 1
  {
    ExecuteOnlyRun(rules, Init(attempt, processes, now), ls);
    AtMostOneMutation(rules.(appendToLostJournal := false), attempt, processes, now, ls);
  }

  // ---------------------------------------------------------------- what some continuation leads to

  lemma RunStep(rules: Rules, s: System, ls: seq<Label>, l: Label)
    requires Run(rules, s, ls).Some?
    requires Enabled(Run(rules, s, ls).value, l) && Allowed(rules, Run(rules, s, ls).value, l)
    ensures Run(rules, s, ls + [l]) == Some(Next(Run(rules, s, ls).value, l))
  {
    assert (ls + [l])[..|ls|] == ls;
  }

  /** Some continuation of s under the rules meets the goal. */
  ghost predicate Leads(rules: Rules, s: System, goal: System -> bool) {
    exists ls :: Run(rules, s, ls).Some? && goal(Run(rules, s, ls).value)
  }

  lemma {:induction false} RunFirst(rules: Rules, s: System, l: Label, ls: seq<Label>)
    requires Enabled(s, l) && Allowed(rules, s, l) && Run(rules, Next(s, l), ls).Some?
    ensures Run(rules, s, [l] + ls) == Run(rules, Next(s, l), ls)
  {
    if ls == [] {
      assert ([l] + ls)[..0] == [];
    } else {
      var n := |ls| - 1;
      RunFirst(rules, s, l, ls[..n]);
      assert ([l] + ls)[..|ls|] == [l] + ls[..n];
    }
  }

  lemma LeadsNow(rules: Rules, s: System, goal: System -> bool)
    requires goal(s)
    ensures Leads(rules, s, goal)
  {
    assert Run(rules, s, []) == Some(s);
  }

  lemma LeadsBack(rules: Rules, s: System, l: Label, goal: System -> bool)
    requires Enabled(s, l) && Allowed(rules, s, l) && Leads(rules, Next(s, l), goal)
    ensures Leads(rules, s, goal)
  {
    var ls :| Run(rules, Next(s, l), ls).Some? && goal(Run(rules, Next(s, l), ls).value);
    RunFirst(rules, s, l, ls);
  }

  lemma {:induction false} RunsJoin(rules: Rules, s: System, first: seq<Label>, rest: seq<Label>)
    requires Run(rules, s, first).Some? && Run(rules, Run(rules, s, first).value, rest).Some?
    ensures Run(rules, s, first + rest) == Run(rules, Run(rules, s, first).value, rest)
  {
    if rest == [] {
      assert first + rest == first;
    } else {
      var n := |rest| - 1;
      RunsJoin(rules, s, first, rest[..n]);
      assert (first + rest)[..|first| + n] == first + rest[..n];
    }
  }

  /** What every state that meets the first goal leads to, the start leads to. */
  lemma LeadsThrough(rules: Rules, s: System, first: System -> bool, goal: System -> bool)
    requires Leads(rules, s, first) && forall t :: first(t) ==> Leads(rules, t, goal)
    ensures Leads(rules, s, goal)
  {
    var ls :| Run(rules, s, ls).Some? && first(Run(rules, s, ls).value);
    var t := Run(rules, s, ls).value;
    var rest :| Run(rules, t, rest).Some? && goal(Run(rules, t, rest).value);
    RunsJoin(rules, s, ls, rest);
  }

  lemma LeadsThroughWrite(rules: Rules, s: System, p: nat, goal: System -> bool)
    requires p < |s.procs| && Pending(s.procs[p]).Some? && s.journal.Valid()
    requires Leads(rules, ActWrite(s, p, Full, false), goal)
    ensures Leads(rules, s, goal)
  {
    LeadsBack(rules, s, Act(p, Wrote(Full)), goal);
  }

  lemma LeadsThroughJudge(rules: Rules, s: System, p: nat, answer: Answer, goal: System -> bool)
    requires p < |s.procs| && Fits(s.procs[p], answer) && s.journal.Valid()
    requires Pending(s.procs[p]).None? && !Preparing(s.procs[p]) && !s.procs[p].Loading?
    requires Allowed(rules, s, Act(p, answer)) && Leads(rules, ActJudge(s, p, answer), goal)
    ensures Leads(rules, s, goal)
  {
    LeadsBack(rules, s, Act(p, answer), goal);
  }

  function StepsToSubmission(pc: Pc): nat {
    match pc
    case WriteAccepted => 7
    case ValidatePlan => 6
    case CollectResources => 5
    case RecordResource => 4
    case RecordMarker => 3
    case WriteSubmitted => 2
    case Submit => 1
    case _ => 0
  }

  function MoreSubmitsThan(count: nat): System -> bool {
    (s: System) => s.submits > count
  }

  /** Nothing between acceptance and submission stops an undisturbed execute. */
  lemma {:induction false} SubmissionFollows(rules: Rules, s: System, p: nat, count: nat)
    requires p < |s.procs| && BeforeSubmission(s.procs[p]) && s.journal.Valid() && s.submits == count
    ensures Leads(rules, s, MoreSubmitsThan(count))
    decreases StepsToSubmission(s.procs[p])
  {
    var pc := s.procs[p];
    var l := Act(p, if Pending(pc).Some? then Wrote(Full) else Ok);
    var t := Next(s, l);
    if pc.Submit? {
      LeadsNow(rules, t, MoreSubmitsThan(count));
    } else {
      SubmissionFollows(rules, t, p, count);
    }
    LeadsBack(rules, s, l, MoreSubmitsThan(count));
  }

  predicate AllIdle(s: System) {
    s.holder.None? && forall p :: 0 <= p < |s.procs| ==> s.procs[p].Idle?
  }

  /** Process 0 alone, in a first execute on its way to submit. */
  predicate Undisturbed(s: System) {
    && s.procs != [] && s.holder == Some(0) && BeforeSubmission(s.procs[0])
    && (forall p :: 0 < p < |s.procs| ==> s.procs[p].Idle?)
    && s.journal.terminated && !Corrupt(s.journal) && !HasEvent(s.journal.lines, AttemptTerminal)
    && s.submits == 0 && s.results == {}
  }

  predicate AtSubmit(s: System) {
    Undisturbed(s) && s.procs[0].Submit?
  }

  lemma UndisturbedWrite(s: System)
    requires Undisturbed(s) && Pending(s.procs[0]).Some?
    ensures Undisturbed(ActWrite(s, 0, Full, false))
    ensures StepsToSubmission(ActWrite(s, 0, Full, false).procs[0]) < StepsToSubmission(s.procs[0])
  {
    var (event, detail) := Pending(s.procs[0]).value;
    var lines, longer := s.journal.lines, ActWrite(s, 0, Full, false).journal.lines;
    assert longer == lines + [Entry(Record(event, s.now, detail))];
  }

  /** Labels that report neither an observation nor a health cycle. */
  predicate Unseeing(ls: seq<Label>) {
    forall i :: 0 <= i < |ls| && ls[i].Act? ==> !ls[i].answer.Saw? && !ls[i].answer.Polled?
  }

  lemma UndisturbedStep(rules: Rules, s: System) returns (l: Label)
    requires Undisturbed(s) && !AtSubmit(s)
    ensures Enabled(s, l) && Allowed(rules, s, l) && Unseeing([l]) && Undisturbed(Next(s, l))
    ensures StepsToSubmission(Next(s, l).procs[0]) < StepsToSubmission(s.procs[0])
  {
    if Pending(s.procs[0]).Some? {
      UndisturbedWrite(s);
      l := Act(0, Wrote(Full));
    } else {
      PrepareCases(s, 0, Ok);
      l := Act(0, Ok);
    }
  }

  /** From every moment before it, the first submission can be reached. */
  lemma {:induction false} SubmitReached(rules: Rules, start: System, ls: seq<Label>, s: System)
    returns (more: seq<Label>)
    requires Run(rules, start, ls) == Some(s) && Unseeing(ls) && Undisturbed(s)
    ensures Run(rules, start, more).Some? && Unseeing(more) && AtSubmit(Run(rules, start, more).value)
    decreases StepsToSubmission(s.procs[0])
  {
    if AtSubmit(s) {
      more := ls;
    } else {
      var l := UndisturbedStep(rules, s);
      RunStep(rules, start, ls, l);
      assert [l][0] == l;
      more := SubmitReached(rules, start, ls + [l], Next(s, l));
    }
  }

  lemma FirstExecuteSubmits(rules: Rules, attempt: SupervisorAttempt, processes: nat, now: int)
    returns (ls: seq<Label>)
    requires Execute in rules.ops && processes > 0
    ensures Run(rules, Init(attempt, processes, now), ls).Some? && Unseeing(ls)
    ensures AtSubmit(Run(rules, Init(attempt, processes, now), ls).value)
  {
    var s := Init(attempt, processes, now);
    var t := Next(s, Begin(0, Execute));
    var u := Next(t, Act(0, Ok));
    assert u == Goto(t, 0, CheckMarker);
    var v := Next(u, Act(0, Ok));
    assert v == Goto(u, 0, WriteAccepted);
    RunStep(rules, s, [], Begin(0, Execute));
    RunStep(rules, s, [] + [Begin(0, Execute)], Act(0, Ok));
    RunStep(rules, s, [] + [Begin(0, Execute)] + [Act(0, Ok)], Act(0, Ok));
    ls := SubmitReached(rules, s, [] + [Begin(0, Execute)] + [Act(0, Ok)] + [Act(0, Ok)], v);
  }

  /** What every first submission leads to, every start leads to. */
  lemma FirstExecuteFollows(rules: Rules, attempt: SupervisorAttempt, processes: nat, now: int, goal: System -> bool)
    requires Execute in rules.ops && processes > 0
    requires forall t :: AtSubmit(t) ==> Leads(rules, t, goal)
    ensures Leads(rules, Init(attempt, processes, now), goal)
  {
    var s := Init(attempt, processes, now);
    var ls := FirstExecuteSubmits(rules, attempt, processes, now);
    var t := Run(rules, s, ls).value;
    var rest :| Run(rules, t, rest).Some? && goal(Run(rules, t, rest).value);
    RunsJoin(rules, s, ls, rest);
  }

  function LostAfterMutation(): System -> bool {
    (s: System) => AllIdle(s) && s.procs != [] && s.submits == 1 && s.journal == EMPTY
  }

  lemma LossFollowsSubmit(s: System)
    requires AtSubmit(s)
    ensures Leads(ANYTHING, s, LostAfterMutation())
  {
    var t := Next(s, Act(0, Ok));
    var u := Next(t, Crash(0));
    LeadsNow(ANYTHING, Next(u, LoseJournal), LostAfterMutation());
    LeadsBack(ANYTHING, u, LoseJournal, LostAfterMutation());
    LeadsBack(ANYTHING, t, Crash(0), LostAfterMutation());
    LeadsBack(ANYTHING, s, Act(0, Ok), LostAfterMutation());
  }

  /** The failing input exists: from every start a run leads to one mutation, no call running and the journal gone. */
  lemma JournalCanBeLostAfterMutation(attempt: SupervisorAttempt, processes: nat, now: int)
    requires processes > 0
    ensures Leads(ANYTHING, Init(attempt, processes, now), LostAfterMutation())
  {
    forall t | AtSubmit(t) ensures Leads(ANYTHING, t, LostAfterMutation()) {
      LossFollowsSubmit(t);
    }
    FirstExecuteFollows(ANYTHING, attempt, processes, now, LostAfterMutation());
  }

  // ---------------------------------------------------------------- exactly when another mutation is possible

  /** The journal loads and shows neither a submission nor the end of the attempt. */
  predicate OpenJournal(file: File) {
    !Corrupt(file) && !HasEvent(file.lines, MutationSubmitted) && !HasEvent(file.lines, AttemptTerminal)
  }

  /** Reconcile or takeover may append to an empty journal although the database knows of a submission. */
  predicate MayAppendToLost(rules: Rules) {
    rules.appendToLostJournal && (Reconcile in rules.ops || Takeover in rules.ops)
  }

  /** What the journal file and the marker row say before the call. */
  predicate Submittable(rules: Rules, s: System) {
    && Execute in rules.ops && OpenJournal(s.journal)
    && (s.journal.lines != [] || !s.marker || MayAppendToLost(rules))
  }

  predicate BarredPc(rules: Rules, s: System, pc: Pc) {
    && !BeforeSubmission(pc)
    && (pc.Loading? ==> pc.op in rules.ops)
    && (pc.CheckMarker? ==> s.marker)
    && (Engaged(pc) ==> Execute !in rules.ops || !OpenJournal(s.journal))
  }

  /** Nobody is on the way to the mutation, and nobody can start. */
  predicate Barred(rules: Rules, s: System) {
    && s.journal.Valid() && !Submittable(rules, s)
    && forall p :: 0 <= p < |s.procs| ==> BarredPc(rules, s, s.procs[p])
  }

  lemma AppendKeepsClosed(file: File, record: Record, write: Write)
    requires file.Valid() && !OpenJournal(file)
    ensures !OpenJournal(Append(file, record, write))
  {
    if Corrupt(file) || HasEvent(file.lines, MutationSubmitted) {
      AppendKeepsEvent(file, record, write, MutationSubmitted);
    } else {
      AppendKeepsEvent(file, record, write, AttemptTerminal);
    }
  }

  lemma AcceptedIsOpen(s: System, p: nat, op: Op)
    requires p < |s.procs| && ActLoad(s, p, op).procs[p].WriteAccepted?
    ensures OpenJournal(s.journal)
  {
    LoadCases(s, p, op);
    TerminalRecordsShow(s.journal);
  }

  /** A step of one process that leaves journal and marker alone. */
  lemma BarredMove(rules: Rules, s: System, t: System, p: nat)
    requires Barred(rules, s) && p < |s.procs| && t.journal == s.journal && t.marker == s.marker
    requires |t.procs| == |s.procs| && t.procs == s.procs[p := t.procs[p]] && BarredPc(rules, t, t.procs[p])
    ensures Barred(rules, t)
  {
    forall q | 0 <= q < |t.procs| ensures BarredPc(rules, t, t.procs[q]) {
      assert q != p ==> BarredPc(rules, s, s.procs[q]);
    }
  }

  lemma BarredWrite(rules: Rules, s: System, p: nat, write: Write, died: bool)
    requires Barred(rules, s) && p < |s.procs| && Pending(s.procs[p]).Some?
    ensures Barred(rules, ActWrite(s, p, write, died)) && ActWrite(s, p, write, died).submits == s.submits
  {
    var (event, detail) := Pending(s.procs[p]).value;
    var t := ActWrite(s, p, write, died);
    assert BarredPc(rules, s, s.procs[p]);
    if !OpenJournal(s.journal) {
      AppendKeepsClosed(s.journal, Record(event, s.now, detail), write);
    }
    forall q | 0 <= q < |t.procs| ensures BarredPc(rules, t, t.procs[q]) {
      assert q != p ==> BarredPc(rules, s, s.procs[q]);
    }
  }

  lemma BarredLoad(rules: Rules, s: System, p: nat)
    requires Barred(rules, s) && p < |s.procs| && s.procs[p].Loading? && Allowed(rules, s, Act(p, Ok))
    ensures Barred(rules, ActLoad(s, p, s.procs[p].op)) && ActLoad(s, p, s.procs[p].op).submits == s.submits
  {
    var t := ActLoad(s, p, s.procs[p].op);
    assert BarredPc(rules, s, s.procs[p]);
    LoadCases(s, p, s.procs[p].op);
    if t.procs[p].WriteAccepted? {
      AcceptedIsOpen(s, p, s.procs[p].op);
    }
    BarredMove(rules, s, t, p);
  }

  lemma BarredEffect(rules: Rules, s: System, p: nat, answer: Answer)
    requires Barred(rules, s) && Enabled(s, Act(p, answer)) && Allowed(rules, s, Act(p, answer))
    ensures Barred(rules, Effect(s, p, answer)) && Effect(s, p, answer).submits == s.submits
  {
    var pc := s.procs[p];
    assert BarredPc(rules, s, pc);
    if Pending(pc).Some? {
      BarredWrite(rules, s, p, answer.write, answer.DiedWriting?);
    } else if pc.Loading? {
      if answer == Ok {
        BarredLoad(rules, s, p);
      } else {
        BarredMove(rules, s, Effect(s, p, answer), p);
      }
    } else if Preparing(pc) {
      BarredMove(rules, s, ActPrepare(s, p, answer), p);
    } else {
      JudgeCases(s, p, answer);
      BarredMove(rules, s, ActJudge(s, p, answer), p);
    }
  }

  lemma BarredNext(rules: Rules, s: System, l: Label)
    requires Barred(rules, s) && Enabled(s, l) && Allowed(rules, s, l) && !rules.fileLoss
    ensures Barred(rules, Next(s, l)) && Next(s, l).submits == s.submits
  {
    match l
    case Act(p, answer) => BarredEffect(rules, s, p, answer);
    case Begin(p, _) => BarredMove(rules, s, Next(s, l), p);
    case Crash(p) => BarredMove(rules, s, Next(s, l), p);
    case Tick(_) =>
      forall q | 0 <= q < |s.procs| ensures BarredPc(rules, Next(s, l), s.procs[q]) {
        assert BarredPc(rules, s, s.procs[q]);
      }
  }

  lemma {:induction false} BarredRun(rules: Rules, s: System, ls: seq<Label>)
    requires Barred(rules, s) && !rules.fileLoss && Run(rules, s, ls).Some?
    ensures Barred(rules, Run(rules, s, ls).value) && Run(rules, s, ls).value.submits == s.submits
  {
    if ls != [] {
      var n := |ls| - 1;
      BarredRun(rules, s, ls[..n]);
      BarredNext(rules, Run(rules, s, ls[..n]).value, ls[n]);
    }
  }

  /** An execute that finds an open journal with records in it goes on to submit without asking for the marker. */
  lemma OpenJournalIsSubmitted(rules: Rules, s: System)
    requires Execute in rules.ops && AllIdle(s) && s.procs != []
    requires s.journal.Valid() && OpenJournal(s.journal) && s.journal.lines != []
    ensures Leads(rules, s, MoreSubmitsThan(s.submits))
  {
    var t := Next(s, Begin(0, Execute));
    var u := Next(t, Act(0, Ok));
    TerminalRecordsShow(s.journal);
    assert u == Goto(t, 0, WriteAccepted);
    SubmissionFollows(rules, u, 0, s.submits);
    LeadsBack(rules, t, Act(0, Ok), MoreSubmitsThan(s.submits));
    LeadsBack(rules, s, Begin(0, Execute), MoreSubmitsThan(s.submits));
  }

  lemma UnmarkedIsSubmitted(rules: Rules, s: System)
    requires Execute in rules.ops && AllIdle(s) && s.procs != [] && s.journal == EMPTY && !s.marker
    ensures Leads(rules, s, MoreSubmitsThan(s.submits))
  {
    var t := Next(s, Begin(0, Execute));
    var u := Next(t, Act(0, Ok));
    assert u == Goto(t, 0, CheckMarker);
    var v := Next(u, Act(0, Ok));
    SubmissionFollows(rules, v, 0, s.submits);
    LeadsBack(rules, u, Act(0, Ok), MoreSubmitsThan(s.submits));
    LeadsBack(rules, t, Act(0, Ok), MoreSubmitsThan(s.submits));
    LeadsBack(rules, s, Begin(0, Execute), MoreSubmitsThan(s.submits));
  }

  /** What a reconcile or takeover that dies after its first append leaves of a lost journal. */
  function Started(s: System): System {
    s.(journal := File([Entry(Record(ReconciliationStarted, s.now, NoDetail))], true))
  }

  /** Process 0 about to append the start of this reconcile or takeover. */
  function Entered(s: System, op: Op): System
    requires s.procs != []
  {
    Goto(s, 0, if op == Takeover then WriteTakeoverStarted else WriteReconStarted).(holder := Some(0))
  }

  lemma LostJournalIsEntered(s: System, op: Op)
    requires s.journal == EMPTY && AllIdle(s) && s.procs != [] && op != Execute
    ensures ActLoad(Next(s, Begin(0, op)), 0, op) == Entered(s, op)
  {
    LoadCases(Next(s, Begin(0, op)), 0, op);
  }

  lemma EnteredIsStarted(s: System, op: Op)
    requires s.journal == EMPTY && AllIdle(s) && s.procs != []
    ensures Leave(ActWrite(Entered(s, op), 0, Full, false), 0) == Started(s)
  {
    assert Leave(ActWrite(Entered(s, op), 0, Full, false), 0).procs == s.procs;
  }

  lemma LostJournalIsStarted(rules: Rules, s: System, op: Op, goal: System -> bool)
    requires op in rules.ops && op != Execute && rules.appendToLostJournal
    requires s.journal == EMPTY && AllIdle(s) && s.procs != [] && Leads(rules, Started(s), goal)
    ensures Leads(rules, s, goal)
  {
    LostJournalIsEntered(s, op);
    EnteredIsStarted(s, op);
    LeadsBack(rules, ActWrite(Entered(s, op), 0, Full, false), Crash(0), goal);
    LeadsThroughWrite(rules, Entered(s, op), 0, goal);
    LeadsBack(rules, Next(s, Begin(0, op)), Act(0, Ok), goal);
    LeadsBack(rules, s, Begin(0, op), goal);
  }

  lemma SubmittableIsSubmitted(rules: Rules, s: System)
    requires Submittable(rules, s) && AllIdle(s) && s.procs != [] && s.journal.Valid()
    ensures Leads(rules, s, MoreSubmitsThan(s.submits))
  {
    if s.journal.lines != [] {
      OpenJournalIsSubmitted(rules, s);
    } else if !s.marker {
      UnmarkedIsSubmitted(rules, s);
    } else {
      OpenJournalIsSubmitted(rules, Started(s));
      LostJournalIsStarted(
        rules, s, if Takeover in rules.ops then Takeover else Reconcile, MoreSubmitsThan(s.submits));
    }
  }

  /** Whatever happened before - any operations, crashes, short writes and file losses, any number of mutations - once
      no call is running: the operations allowed from now on can lead to one more mutation, without any further file
      loss, if and only if execute is one of them, the journal is open, and an empty journal is either backed by no
      marker or may be appended to by reconcile or takeover. */
  lemma NextMutationExactly(
    before: Rules, after: Rules, attempt: SupervisorAttempt, processes: nat, now: int, ls: seq<Label>)
    requires !after.fileLoss && Run(before, Init(attempt, processes, now), ls).Some?
    requires var s := Run(before, Init(attempt, processes, now), ls).value; AllIdle(s) && s.procs != []
    ensures var s := Run(before, Init(attempt, processes, now), ls).value;
      Leads(after, s, MoreSubmitsThan(s.submits)) <==> Submittable(after, s)
  {
    ExclusiveRun(before, Init(attempt, processes, now), ls);
    var s := Run(before, Init(attempt, processes, now), ls).value;
    if Submittable(after, s) {
      SubmittableIsSubmitted(after, s);
    } else {
      forall rest | Run(after, s, rest).Some? ensures Run(after, s, rest).value.submits == s.submits {
        BarredRun(after, s, rest);
      }
    }
  }

  /** With all operations the marker protects nothing: another mutation can follow if and only if the journal loads and
      shows neither a submission nor a terminal record. */
  lemma SecondMutationExactly(before: Rules, attempt: SupervisorAttempt, processes: nat, now: int, ls: seq<Label>)
    requires Run(before, Init(attempt, processes, now), ls).Some?
    requires var s := Run(before, Init(attempt, processes, now), ls).value; AllIdle(s) && s.procs != []
    ensures var s := Run(before, Init(attempt, processes, now), ls).value;
      Leads(ANYTHING.(fileLoss := false), s, MoreSubmitsThan(s.submits)) <==>
        && !Corrupt(s.journal)
        && !HasEvent(s.journal.lines, MutationSubmitted) && !HasEvent(s.journal.lines, AttemptTerminal)
  {
    NextMutationExactly(before, ANYTHING.(fileLoss := false), attempt, processes, now, ls);
  }

  // ---------------------------------------------------------------- both failing inputs are reachable

  /** One mutation, no call running, and a journal that knows of a started reconciliation only. */
  function StartedAfterMutation(): System -> bool {
    (s: System) =>
      AllIdle(s) && s.procs != [] && s.submits == 1
      && s.journal == File([Entry(Record(ReconciliationStarted, s.now, NoDetail))], true)
  }

  /** The journal need not be empty: from every start a run leads to one mutation and a journal that holds nothing but
      the start of a takeover, and from every such moment the next execute can submit again. */
  lemma ReconciliationCanHideMutation(attempt: SupervisorAttempt, processes: nat, now: int)
    requires processes > 0
    ensures Leads(ANYTHING, Init(attempt, processes, now), StartedAfterMutation())
    ensures forall s | StartedAfterMutation()(s) :: Leads(ANYTHING.(fileLoss := false), s, MoreSubmitsThan(1))
  {
    JournalCanBeLostAfterMutation(attempt, processes, now);
    forall t | LostAfterMutation()(t) ensures Leads(ANYTHING, t, StartedAfterMutation()) {
      LeadsNow(ANYTHING, Started(t), StartedAfterMutation());
      LostJournalIsStarted(ANYTHING, t, Takeover, StartedAfterMutation());
    }
    LeadsThrough(ANYTHING, Init(attempt, processes, now), LostAfterMutation(), StartedAfterMutation());
    forall s | StartedAfterMutation()(s) ensures Leads(ANYTHING.(fileLoss := false), s, MoreSubmitsThan(1)) {
      OpenJournalIsSubmitted(ANYTHING.(fileLoss := false), s);
    }
  }

  /** And it fails: from every start some run of all three operations submits twice. */
  lemma TwoMutationsAreReachable(attempt: SupervisorAttempt, processes: nat, now: int)
    requires processes > 0
    ensures Leads(ANYTHING, Init(attempt, processes, now), MoreSubmitsThan(1))
  {
    JournalCanBeLostAfterMutation(attempt, processes, now);
    forall t | LostAfterMutation()(t) ensures Leads(ANYTHING, t, MoreSubmitsThan(1)) {
      SubmittableIsSubmitted(ANYTHING, t);
    }
    LeadsThrough(ANYTHING, Init(attempt, processes, now), LostAfterMutation(), MoreSubmitsThan(1));
  }
}
