/** What a call was told: the answers that a process has got since it last began, and what they make of the call.
    Whatever the interleaving, nothing durable is prepared before the plan and the resources were accepted, and every
    verdict is the one that the answers of that very call call for. */
module SupervisorHistory {
  import opened Wrappers
  import opened HealthContract
  import opened Journal
  import opened SupervisorProtocol
  import opened SupervisorSafety
  import opened SupervisorVerdicts

  /** One step of a call: where the process stood and what it was answered. */
  datatype Turn = Turn(at: Pc, answer: Answer)

  /** The turns of process p since it last began; a crash ends a call without a trace. */
  function Call(rules: Rules, s: System, ls: seq<Label>, p: nat): seq<Turn>
    requires Run(rules, s, ls).Some?
  {
    if ls == [] then []
    else
      var n := |ls| - 1;
      var before := Run(rules, s, ls[..n]).value;
      match ls[n]
      case Begin(q, _) => if q == p then [] else Call(rules, s, ls[..n], p)
      case Crash(q) => if q == p then [] else Call(rules, s, ls[..n], p)
      case Act(q, answer) =>
        if q == p then Call(rules, s, ls[..n], p) + [Turn(before.procs[p], answer)] else Call(rules, s, ls[..n], p)
      case _ => Call(rules, s, ls[..n], p)
  }

  function Last(call: seq<Turn>): Turn
    requires call != []
  {
    call[|call| - 1]
  }

  /** The turn before the last k ones. */
  function Back(call: seq<Turn>, k: nat): Option<Turn> {
    if k < |call| then Some(call[|call| - 1 - k]) else None
  }

  // ---------------------------------------------------------------- the way to the mutation

  /** Plan and resources were accepted, one after the other, just before the last k turns. */
  predicate Accepted(call: seq<Turn>, k: nat) {
    Back(call, k + 1) == Some(Turn(ValidatePlan, Ok)) && Back(call, k) == Some(Turn(CollectResources, Ok))
  }

  /** Whoever has come this far on the way to the mutation was last told exactly this. */
  predicate Climbed(pc: Pc, call: seq<Turn>) {
    match pc
    case CollectResources => Back(call, 0) == Some(Turn(ValidatePlan, Ok))
    case RecordResource => Accepted(call, 0)
    case RecordMarker => Accepted(call, 1) && Back(call, 0) == Some(Turn(RecordResource, Ok))
    case WriteSubmitted =>
      && Accepted(call, 2)
      && Back(call, 1) == Some(Turn(RecordResource, Ok)) && Back(call, 0) == Some(Turn(RecordMarker, Ok))
    case Submit =>
      && Accepted(call, 3)
      && Back(call, 2) == Some(Turn(RecordResource, Ok)) && Back(call, 1) == Some(Turn(RecordMarker, Ok))
      && call != [] && Last(call).at == WriteSubmitted && Last(call).answer.Wrote?
    case _ => true
  }

  /** The plan or the resources were refused. */
  predicate Refused(call: seq<Turn>) {
    Turn(ValidatePlan, Raise) in call || Turn(CollectResources, Raise) in call
  }

  predicate Over(pc: Pc) {
    pc.Idle? || pc == Raising("plan") || pc == Raising("resources")
  }

  // ---------------------------------------------------------------- what an answer decides

  /** All that the supervisor asks of a cycle before it calls the attempt healthy. */
  predicate Meets(attempt: SupervisorAttempt, cycle: HealthCycle, deadline: int) {
    && (forall name <- RequiredHealthChecks(attempt.serviceImages.Keys) ::
          name in cycle.checks && cycle.checks[name])
    && cycle.checks.Keys <= RequiredHealthChecks(attempt.serviceImages.Keys)
    && cycle.observedDigest == attempt.artifactDigest && cycle.observedSha == attempt.targetSha
    && (attempt.migrationRevision == None || cycle.migrationRevision == attempt.migrationRevision)
    && cycle.completedAt <= deadline
  }

  predicate Asking(pc: Pc) {
    pc.Submit? || pc.Observe? || pc.VerifyHealth?
  }

  /** The last time Docker was asked. */
  function Ground(call: seq<Turn>): Option<Turn> {
    if call == [] then None
    else if Asking(Last(call).at) then Some(Last(call))
    else Ground(call[..|call| - 1])
  }

  /** The state that Docker's answer stands for: a refused mutation failed, an observation is taken as it is unless the
      mutation is complete, and health is decided by the cycle. */
  function Stands(attempt: SupervisorAttempt, turn: Turn): Option<RuntimeState> {
    if turn.at.Submit? then
      if turn.answer == DockerRefused then Some(Failed) else None
    else if turn.at.Observe? && turn.answer.Saw? then
      if turn.answer.view.state in {Healthy, Failed} then Some(turn.answer.view.state)
      else if turn.answer.view.state == CompletedHealthUnknown then None
      else Some(Unknown)
    else if turn.at.VerifyHealth? then
      Some(if turn.answer.Polled? && Meets(attempt, turn.answer.cycle, turn.at.deadline) then Healthy else Failed)
    else None
  }

  predicate Rests(attempt: SupervisorAttempt, call: seq<Turn>, state: RuntimeState) {
    Ground(call).Some? && Stands(attempt, Ground(call).value) == Some(state)
  }

  /** Docker was not asked yet, or its last answer leaves the state open: the mutation returned or was lost, or is
      seen to be complete with unknown health. */
  predicate Unsettled(attempt: SupervisorAttempt, call: seq<Turn>) {
    Ground(call) == None || Stands(attempt, Ground(call).value) == None
  }

  /** Each place after the mutation was reached by the answer that belongs there. */
  predicate Grounded(attempt: SupervisorAttempt, pc: Pc, call: seq<Turn>) {
    match pc
    case WriteMutationFailed => Rests(attempt, call, Failed)
    case WriteCompleted => call != [] && Last(call) == Turn(Submit, Ok)
    case WriteReconStarted =>
      call != [] && Unsettled(attempt, call) && (|call| == 1 || Last(call) == Turn(Submit, Raise))
    case Observe => Unsettled(attempt, call)
    case WriteHealthStarted => Unsettled(attempt, call)
    case LoadAnchor => Unsettled(attempt, call)
    case VerifyHealth(_) => Unsettled(attempt, call)
    case WriteReconResult(seen) =>
      call != [] && Last(call).at.Observe? && Last(call).answer.Saw? && Last(call).answer.view.state == seen
    case WriteAnchorMissing => false
    case WriteHealthError => Rests(attempt, call, Failed)
    case WriteHealthVerdict(pass) => Rests(attempt, call, if pass.Some? then Healthy else Failed)
    case WriteTerminal(state, _) => Rests(attempt, call, state)
    case RecordResult(state, _) => Rests(attempt, call, state)
    case Return(verdict) => verdict.State? ==> ReturnedOn(attempt, call, verdict.state)
    case _ => true
  }

  /** A state is returned because the journal held it, because its row was just recorded, or - and then it is
      UNKNOWN - because the database failed. */
  predicate ReturnedOn(attempt: SupervisorAttempt, call: seq<Turn>, state: RuntimeState) {
    call != [] &&
    if |call| == 1 then call[0] == Turn(Loading(Execute), Ok)
    else if Last(call).at.RecordResult? then
      Last(call).answer == Ok && Last(call).at.state == state && Rests(attempt, call[..|call| - 1], state)
    else Last(call).at.WriteDbDisconnected? && state == Unknown
  }

  // ---------------------------------------------------------------- the takeover

  /** Two quiet observations with one fingerprint, no event between them, and a state that tells where things stand. */
  predicate Quiescence(first: Snapshot, second: Snapshot, events: bool) {
    && !first.clientActive && !first.transitional && !second.clientActive && !second.transitional
    && first.fingerprint == second.fingerprint && !events
    && second.state != InProgress && second.state != Unknown
  }

  /** What the takeover looked at before it came to `safe`. */
  predicate LookedTwice(call: seq<Turn>, safe: bool) {
    if call != [] && Last(call).at.ObserveFirst? then
      && Last(call).answer.Saw? && !safe
      && (Last(call).answer.view.clientActive || Last(call).answer.view.transitional)
    else
      && |call| >= 2 && call[|call| - 2].at.ObserveFirst? && Last(call).at.ObserveSecond?
      && call[|call| - 2].answer.Saw? && Last(call).answer.Saw?
      && (safe <==>
            Quiescence(call[|call| - 2].answer.view, Last(call).answer.view, Last(call).answer.events))
  }

  predicate TookOver(pc: Pc, call: seq<Turn>) {
    match pc
    case ObserveSecond(first) =>
      && call != [] && Last(call).at.ObserveFirst? && Last(call).answer.Saw? && Last(call).answer.view == first
      && !first.clientActive && !first.transitional
    case WriteTakeoverResult(safe, seen) =>
      LookedTwice(call, safe) && (safe ==> seen == Last(call).answer.view.state)
    case Return(verdict) =>
      verdict.Quiescent? ==>
        && call != [] && LookedTwice(call[..|call| - 1], verdict.safe)
        && Last(call).at.WriteTakeoverResult? && Last(call).at.safe == verdict.safe && Last(call).answer.Wrote?
    case _ => true
  }

  // ---------------------------------------------------------------- all of it is kept by every step

  /** What holds of every process and its call. */
  predicate Told(attempt: SupervisorAttempt, pc: Pc, call: seq<Turn>) {
    && (pc.Loading? ==> call == [])
    && (!pc.Idle? && !pc.Loading? ==> call != [])
    && Climbed(pc, call)
    && (Refused(call) ==> Over(pc))
    && Grounded(attempt, pc, call)
    && TookOver(pc, call)
  }

  function Then(call: seq<Turn>, s: System, p: nat, answer: Answer): seq<Turn>
    requires p < |s.procs|
  {
    call + [Turn(s.procs[p], answer)]
  }

  lemma GroundNext(call: seq<Turn>, turn: Turn)
    ensures Ground(call + [turn]) == if Asking(turn.at) then Some(turn) else Ground(call)
  {
    assert (call + [turn])[..|call|] == call;
  }

  lemma RefusedNext(call: seq<Turn>, turn: Turn)
    ensures Refused(call + [turn]) <==>
      Refused(call) || turn == Turn(ValidatePlan, Raise) || turn == Turn(CollectResources, Raise)
  {
  }

  lemma MeetsExactly(attempt: SupervisorAttempt, cycle: HealthCycle, deadline: int)
    ensures Passes(attempt, cycle, deadline) <==> Meets(attempt, cycle, deadline)
  {
  }

  lemma BackNext(call: seq<Turn>, turn: Turn, k: nat)
    ensures Back(call + [turn], k) == if k == 0 then Some(turn) else Back(call, k - 1)
  {
  }

  lemma AcceptedNext(call: seq<Turn>, turn: Turn, k: nat)
    requires Accepted(call, k)
    ensures Accepted(call + [turn], k + 1)
  {
    BackNext(call, turn, k + 1);
    BackNext(call, turn, k + 2);
  }

  lemma WriteClimbed(pc: Pc, write: Write, call: seq<Turn>)
    requires Pending(pc).Some? && Climbed(pc, call)
    ensures Climbed(AfterWrite(pc), call + [Turn(pc, Wrote(write))])
  {
    if pc.WriteSubmitted? {
      AcceptedNext(call, Turn(pc, Wrote(write)), 2);
    }
  }

  lemma WriteGrounded(attempt: SupervisorAttempt, pc: Pc, write: Write, call: seq<Turn>)
    requires Pending(pc).Some? && Grounded(attempt, pc, call) && call != []
    ensures Grounded(attempt, AfterWrite(pc), call + [Turn(pc, Wrote(write))])
  {
    var turn := Turn(pc, Wrote(write));
    GroundNext(call, turn);
    assert (call + [turn])[..|call|] == call;
    if pc.WriteReconResult? {
      assert Ground(call) == Some(Last(call));
    }
  }

  lemma WriteTookOver(pc: Pc, write: Write, call: seq<Turn>)
    requires Pending(pc).Some? && TookOver(pc, call)
    ensures TookOver(AfterWrite(pc), call + [Turn(pc, Wrote(write))])
  {
    assert (call + [Turn(pc, Wrote(write))])[..|call|] == call;
  }

  lemma ToldWrite(s: System, p: nat, write: Write, died: bool, answer: Answer, call: seq<Turn>)
    requires p < |s.procs| && Pending(s.procs[p]).Some? && s.journal.Valid() && Told(s.attempt, s.procs[p], call)
    requires answer == if died then DiedWriting(write) else Wrote(write)
    ensures Told(s.attempt, ActWrite(s, p, write, died).procs[p], Then(call, s, p, answer))
  {
    RefusedNext(call, Turn(s.procs[p], answer));
    if !died {
      WriteClimbed(s.procs[p], write, call);
      WriteGrounded(s.attempt, s.procs[p], write, call);
      WriteTookOver(s.procs[p], write, call);
    }
  }

  lemma ToldLoad(s: System, p: nat, call: seq<Turn>)
    requires p < |s.procs| && s.procs[p].Loading? && Told(s.attempt, s.procs[p], call)
    ensures Told(s.attempt, ActLoad(s, p, s.procs[p].op).procs[p], Then(call, s, p, Ok))
  {
    LoadCases(s, p, s.procs[p].op);
    if ActLoad(s, p, s.procs[p].op).procs[p].Return? {
      LoadReturns(s, p, s.procs[p].op);
    }
    GroundNext(call, Turn(s.procs[p], Ok));
    RefusedNext(call, Turn(s.procs[p], Ok));
  }

  lemma LoadReturns(s: System, p: nat, op: Op)
    requires p < |s.procs| && ActLoad(s, p, op).procs[p].Return?
    ensures op == Execute && ActLoad(s, p, op).procs[p].verdict.State?
  {
  }

  /** Where a preparing step can lead, and on which answer. */
  predicate Advances(pc: Pc, answer: Answer, next: Pc) {
    && (next.WriteAccepted? || next.CollectResources? || next.RecordResource? || next.RecordMarker?
        || next.WriteSubmitted? || next.WriteCompleted? || next.WriteMutationFailed? || next.WriteReconStarted?
        || next.WriteDbDisconnected? || next.Raising?)
    && (next.CollectResources? ==> pc == ValidatePlan && answer == Ok)
    && (next.RecordResource? ==> pc == CollectResources && answer == Ok)
    && (next.RecordMarker? ==> pc == RecordResource && answer == Ok)
    && (next.WriteSubmitted? ==> pc == RecordMarker && answer == Ok)
    && (next.WriteCompleted? ==> pc == Submit && answer == Ok)
    && (next.WriteMutationFailed? ==> pc == Submit && answer == DockerRefused)
    && (next.WriteReconStarted? ==> pc == Submit && answer == Raise)
    && (pc.ValidatePlan? && answer == Raise ==> next == Raising("plan"))
    && (pc.CollectResources? && answer == Raise ==> next == Raising("resources"))
  }

  lemma PrepareAdvances(s: System, p: nat, answer: Answer)
    requires p < |s.procs| && Fits(s.procs[p], answer) && Preparing(s.procs[p])
    ensures Advances(s.procs[p], answer, ActPrepare(s, p, answer).procs[p])
  {
  }

  lemma AdvanceClimbed(pc: Pc, answer: Answer, next: Pc, call: seq<Turn>)
    requires Advances(pc, answer, next) && Climbed(pc, call)
    ensures Climbed(next, call + [Turn(pc, answer)])
  {
    var turn := Turn(pc, answer);
    if next.RecordMarker? {
      AcceptedNext(call, turn, 0);
    } else if next.WriteSubmitted? {
      AcceptedNext(call, turn, 1);
    }
  }

  lemma AdvanceGrounded(attempt: SupervisorAttempt, pc: Pc, answer: Answer, next: Pc, call: seq<Turn>)
    requires Preparing(pc) && Advances(pc, answer, next)
    ensures Grounded(attempt, next, call + [Turn(pc, answer)]) && TookOver(next, call + [Turn(pc, answer)])
  {
    GroundNext(call, Turn(pc, answer));
  }

  lemma AdvanceRefused(pc: Pc, answer: Answer, next: Pc, call: seq<Turn>)
    requires Preparing(pc) && Advances(pc, answer, next) && (Refused(call) ==> Over(pc))
    ensures Refused(call + [Turn(pc, answer)]) ==> Over(next)
  {
    RefusedNext(call, Turn(pc, answer));
  }

  lemma AdvanceTold(attempt: SupervisorAttempt, pc: Pc, answer: Answer, next: Pc, call: seq<Turn>)
    requires Preparing(pc) && Advances(pc, answer, next) && Climbed(pc, call) && (Refused(call) ==> Over(pc))
    ensures Told(attempt, next, call + [Turn(pc, answer)])
  {
    AdvanceClimbed(pc, answer, next, call);
    AdvanceGrounded(attempt, pc, answer, next, call);
    AdvanceRefused(pc, answer, next, call);
  }

  lemma ToldPrepare(s: System, p: nat, answer: Answer, call: seq<Turn>)
    requires p < |s.procs| && Fits(s.procs[p], answer) && Preparing(s.procs[p]) && Told(s.attempt, s.procs[p], call)
    ensures Told(s.attempt, ActPrepare(s, p, answer).procs[p], Then(call, s, p, answer))
  {
    PrepareAdvances(s, p, answer);
    AdvanceTold(s.attempt, s.procs[p], answer, ActPrepare(s, p, answer).procs[p], call);
  }

  lemma ToldJudge(s: System, p: nat, answer: Answer, call: seq<Turn>)
    requires p < |s.procs| && Fits(s.procs[p], answer)
    requires Pending(s.procs[p]).None? && !Preparing(s.procs[p]) && !s.procs[p].Loading?
    requires Told(s.attempt, s.procs[p], call) && !ActJudge(s, p, answer).procs[p].WriteAnchorMissing?
    ensures Told(s.attempt, ActJudge(s, p, answer).procs[p], Then(call, s, p, answer))
  {
    var turn := Turn(s.procs[p], answer);
    JudgeCases(s, p, answer);
    GroundNext(call, turn);
    RefusedNext(call, turn);
    assert (call + [turn])[..|call|] == call;
    if answer.Polled? && s.procs[p].VerifyHealth? {
      MeetsExactly(s.attempt, answer.cycle, s.procs[p].deadline);
    }
  }

  lemma ToldEffect(s: System, p: nat, answer: Answer, call: seq<Turn>)
    requires Enabled(s, Act(p, answer)) && Told(s.attempt, s.procs[p], call)
    requires !Effect(s, p, answer).procs[p].WriteAnchorMissing?
    ensures Told(s.attempt, Effect(s, p, answer).procs[p], Then(call, s, p, answer))
  {
    var pc := s.procs[p];
    if Pending(pc).Some? {
      ToldWrite(s, p, answer.write, answer.DiedWriting?, answer, call);
    } else if pc.Loading? {
      if answer == Ok {
        ToldLoad(s, p, call);
      } else {
        RefusedNext(call, Turn(pc, answer));
      }
    } else if Preparing(pc) {
      ToldPrepare(s, p, answer, call);
    } else {
      ToldJudge(s, p, answer, call);
    }
  }

  lemma OthersLeave(s: System, l: Label, p: nat)
    requires Enabled(s, l) && (l.Begin? || l.Act? || l.Crash? ==> l.p != p) && p < |s.procs|
    ensures p < |Next(s, l).procs| && Next(s, l).procs[p] == s.procs[p] && Next(s, l).attempt == s.attempt
  {
    if l.Act? {
      EffectFrame(s, l.p, l.answer);
    }
  }

  lemma {:induction false} ProcessesStay(rules: Rules, s: System, ls: seq<Label>)
    requires Run(rules, s, ls).Some?
    ensures |Run(rules, s, ls).value.procs| == |s.procs|
  {
    if ls != [] {
      var n := |ls| - 1;
      ProcessesStay(rules, s, ls[..n]);
      if ls[n].Act? {
        EffectFrame(Run(rules, s, ls[..n]).value, ls[n].p, ls[n].answer);
      }
    }
  }

  /** The turns of p after one more label. */
  function CallNext(s: System, l: Label, p: nat, call: seq<Turn>): seq<Turn>
    requires p < |s.procs|
  {
    match l
    case Begin(q, _) => if q == p then [] else call
    case Crash(q) => if q == p then [] else call
    case Act(q, answer) => if q == p then Then(call, s, p, answer) else call
    case _ => call
  }

  lemma ToldNext(s: System, l: Label, p: nat, call: seq<Turn>)
    requires Enabled(s, l) && p < |s.procs| && Told(s.attempt, s.procs[p], call)
    requires p < |Next(s, l).procs| ==> !Next(s, l).procs[p].WriteAnchorMissing?
    ensures p < |Next(s, l).procs| && Next(s, l).attempt == s.attempt
    ensures Told(s.attempt, Next(s, l).procs[p], CallNext(s, l, p, call))
  {
    if (l.Begin? || l.Act? || l.Crash?) && l.p == p {
      if l.Act? {
        EffectFrame(s, p, l.answer);
        ToldEffect(s, p, l.answer, call);
      }
    } else {
      OthersLeave(s, l, p);
    }
  }

  lemma {:induction false} ToldRun(
    rules: Rules, attempt: SupervisorAttempt, processes: nat, now: int, ls: seq<Label>, p: nat)
    requires Run(rules, Init(attempt, processes, now), ls).Some? && p < processes
    ensures var s := Run(rules, Init(attempt, processes, now), ls).value;
      && p < |s.procs| && s.attempt == attempt
      && Told(attempt, s.procs[p], Call(rules, Init(attempt, processes, now), ls, p))
  {
    var start := Init(attempt, processes, now);
    if ls != [] {
      var n := |ls| - 1;
      ToldRun(rules, attempt, processes, now, ls[..n], p);
      var before := Run(rules, start, ls[..n]).value;
      ProcessesStay(rules, start, ls);
      AnchorNeverMissing(rules, attempt, processes, now, ls, p);
      ToldNext(before, ls[n], p, Call(rules, start, ls[..n], p));
      assert Call(rules, start, ls, p) == CallNext(before, ls[n], p, Call(rules, start, ls[..n], p));
    }
  }

  // ---------------------------------------------------------------- what that means

  /** Only three steps touch row counter, marker and submissions. */
  lemma CountersMove(s: System, l: Label)
    requires Enabled(s, l)
    ensures var t := Next(s, l);
      && s.resourceRows <= t.resourceRows <= s.resourceRows + 1 && (s.marker ==> t.marker)
      && (t.resourceRows != s.resourceRows ==> l.Act? && s.procs[l.p].RecordResource?)
      && (t.marker != s.marker ==> l.Act? && s.procs[l.p].RecordMarker?)
      && t.submits == s.submits + (if l.Act? && s.procs[l.p].Submit? then 1 else 0)
  {
    if l.Act? {
      var pc := s.procs[l.p];
      if Pending(pc).Some? {
      } else if pc.Loading? {
        LoadCases(s, l.p, pc.op);
      } else if !Preparing(pc) {
        JudgeCases(s, l.p, l.answer);
      }
    }
  }

  /** The gate of the mutation: in every run, a step that adds a resource row, sets the marker or submits is a step of a
      call that was told - in this order and with nothing in between - that the plan is accepted and the resources are
      accepted; before the marker the row was stored, and before the submission the marker and the record. */
  lemma NothingBeforeAcceptance(
    rules: Rules, attempt: SupervisorAttempt, processes: nat, now: int, ls: seq<Label>, l: Label)
    requires Run(rules, Init(attempt, processes, now), ls).Some?
    requires Enabled(Run(rules, Init(attempt, processes, now), ls).value, l)
    ensures var s := Run(rules, Init(attempt, processes, now), ls).value;
      var t := Next(s, l);
      && s.resourceRows <= t.resourceRows && (s.marker ==> t.marker)
      && t.submits == s.submits + (if l.Act? && s.procs[l.p].Submit? then 1 else 0)
      && (t.resourceRows != s.resourceRows || t.marker != s.marker || t.submits != s.submits ==>
            l.Act? &&
            var call := Call(rules, Init(attempt, processes, now), ls, l.p);
            && (t.resourceRows != s.resourceRows ==>
                  && Back(call, 1) == Some(Turn(ValidatePlan, Ok))
                  && Back(call, 0) == Some(Turn(CollectResources, Ok)))
            && (t.marker != s.marker ==>
                  && Back(call, 2) == Some(Turn(ValidatePlan, Ok))
                  && Back(call, 1) == Some(Turn(CollectResources, Ok))
                  && Back(call, 0) == Some(Turn(RecordResource, Ok)))
            && (t.submits != s.submits ==>
                  && Back(call, 4) == Some(Turn(ValidatePlan, Ok))
                  && Back(call, 3) == Some(Turn(CollectResources, Ok))
                  && Back(call, 2) == Some(Turn(RecordResource, Ok))
                  && Back(call, 1) == Some(Turn(RecordMarker, Ok))
                  && Last(call).at == WriteSubmitted && Last(call).answer.Wrote?))
  {
    var s := Run(rules, Init(attempt, processes, now), ls).value;
    CountersMove(s, l);
    if l.Act? {
      ProcessesStay(rules, Init(attempt, processes, now), ls);
      ToldRun(rules, attempt, processes, now, ls, l.p);
    }
  }

  /** A refusal ends the call: once a call was refused plan or resources, its process either is idle or has nothing left
      to do but to raise that refusal, and nothing that it does until it begins anew touches journal, rows, marker,
      runtime or results. */
  lemma RefusalEndsTheCall(
    rules: Rules, attempt: SupervisorAttempt, processes: nat, now: int, ls: seq<Label>, p: nat, answer: Answer)
    requires Run(rules, Init(attempt, processes, now), ls).Some? && p < processes
    requires Refused(Call(rules, Init(attempt, processes, now), ls, p))
    ensures var s := Run(rules, Init(attempt, processes, now), ls).value;
      && p < |s.procs|
      && (s.procs[p].Idle? || s.procs[p] == Raising("plan") || s.procs[p] == Raising("resources"))
      && (Enabled(s, Act(p, answer)) ==>
            !s.procs[p].Idle? &&
            Next(s, Act(p, answer)) ==
              s.(procs := s.procs[p := Idle], holder := if s.holder == Some(p) then None else s.holder,
                 outcomes := s.outcomes + [Raised(s.procs[p].code)]))
  {
    ToldRun(rules, attempt, processes, now, ls, p);
  }

  /** Whatever is returned rests on the answers of the call itself: HEALTHY, FAILED and UNKNOWN are what Docker's last
      answer stands for, or were read from the journal at the start; UNKNOWN is returned as well when the database
      fails. */
  lemma VerdictsRestOnAnswers(
    rules: Rules, attempt: SupervisorAttempt, processes: nat, now: int, ls: seq<Label>, p: nat, state: RuntimeState)
    requires Run(rules, Init(attempt, processes, now), ls).Some? && p < processes
    requires p < |Run(rules, Init(attempt, processes, now), ls).value.procs|
    requires Run(rules, Init(attempt, processes, now), ls).value.procs[p] == Return(State(state))
    ensures var call := Call(rules, Init(attempt, processes, now), ls, p);
      || call == [Turn(Loading(Execute), Ok)]
      || (state == Unknown && call != [] && Last(call).at.WriteDbDisconnected?)
      || (Ground(call).Some? && Stands(attempt, Ground(call).value) == Some(state))
  {
    ToldRun(rules, attempt, processes, now, ls, p);
    var call := Call(rules, Init(attempt, processes, now), ls, p);
    if |call| > 1 && Last(call).at.RecordResult? {
      GroundNext(call[..|call| - 1], Last(call));
      assert call == call[..|call| - 1] + [Last(call)];
    }
  }

  /** Where a call goes once its attempt is loaded, by the lines of its journal: a line that does not parse ends it;
      execute returns what a finished journal says, reconciles after a submission, asks for the marker if there is no
      line at all, and goes on to accept the attempt otherwise; the other two operations go ahead whatever the journal
      says. */
  lemma EntersExactly(s: System, p: nat)
    requires Enabled(s, Act(p, Ok)) && s.procs[p].Loading?
    ensures var t := Next(s, Act(p, Ok));
      var pc := t.procs[p];
      && t == s.(procs := s.procs[p := pc])
      && (Garbage in s.journal.lines ==> pc == Raising("journal_corrupt"))
      && (Garbage !in s.journal.lines ==>
            match s.procs[p].op
            case Reconcile => pc == WriteReconStarted
            case Takeover => pc == WriteTakeoverStarted
            case Execute =>
              if HasEvent(s.journal.lines, AttemptTerminal) then pc.Raising? || (pc.Return? && pc.verdict.State?)
              else if HasEvent(s.journal.lines, MutationSubmitted) then pc == WriteReconStarted
              else pc == if s.journal.lines == [] then CheckMarker else WriteAccepted)
  {
    if Garbage !in s.journal.lines {
      TerminalRecordsShow(s.journal);
    }
    LoadCases(s, p, s.procs[p].op);
  }

  /** What the marker decides when there is no journal. */
  lemma MarkerDecides(s: System, p: nat)
    requires Enabled(s, Act(p, Ok)) && s.procs[p].CheckMarker?
    ensures Next(s, Act(p, Ok)) == s.(procs := s.procs[
      p := if s.marker then Raising("journal_missing_after_db_submission") else WriteAccepted])
  {
  }

  /** Docker is asked again only while its last answer leaves the state open: a refused mutation, an observed
      HEALTHY or FAILED, an observation that tells nothing and a judged cycle all end the questions. Within one call
      a submission is followed by a reconciliation only if its answer was lost. */
  lemma AsksOnlyWhileOpen(
    rules: Rules, attempt: SupervisorAttempt, processes: nat, now: int, ls: seq<Label>, p: nat)
    requires Run(rules, Init(attempt, processes, now), ls).Some? && p < processes
    ensures var s, call := Run(rules, Init(attempt, processes, now), ls).value,
                           Call(rules, Init(attempt, processes, now), ls, p);
      && p < |s.procs|
      && (s.procs[p].Observe? || s.procs[p].VerifyHealth? ==>
            Ground(call) == None || Stands(attempt, Ground(call).value) == None)
      && (s.procs[p].WriteReconStarted? && |call| > 1 ==> Last(call) == Turn(Submit, Raise))
      && (s.procs[p].WriteCompleted? ==> call != [] && Last(call) == Turn(Submit, Ok))
  {
    ToldRun(rules, attempt, processes, now, ls, p);
  }

  lemma TookOverRun(
    rules: Rules, attempt: SupervisorAttempt, processes: nat, now: int, ls: seq<Label>, p: nat)
    requires Run(rules, Init(attempt, processes, now), ls).Some? && p < processes
    requires p < |Run(rules, Init(attempt, processes, now), ls).value.procs|
    ensures TookOver(Run(rules, Init(attempt, processes, now), ls).value.procs[p],
                     Call(rules, Init(attempt, processes, now), ls, p))
  {
    ToldRun(rules, attempt, processes, now, ls, p);
  }

  /** The result row of a verdict: stored unless the database refused it or has it already, and the verdict is returned
      only if it was stored by this very call and the database said so. */
  lemma ResultsExactly(s: System, p: nat, answer: Answer)
    requires Enabled(s, Act(p, answer)) && s.procs[p].RecordResult?
    ensures var t, pc := Next(s, Act(p, answer)), s.procs[p];
      var key := (pc.source, pc.state);
      && t.results == (if answer == Raise then s.results else s.results + {key})
      && t.procs == s.procs[
           p := if answer == Ok && key !in s.results then Return(State(pc.state)) else WriteDbDisconnected]
      && t.journal == s.journal && t.submits == s.submits && t.marker == s.marker
  {
    var key := (s.procs[p].source, s.procs[p].state);
    if key in s.results {
      assert s.results + {key} == s.results;
    }
  }

  /** What the takeover leaves in the journal: the observed state if it was safe, UNKNOWN if not. */
  lemma TakeoverJournals(s: System, p: nat)
    requires Enabled(s, Act(p, Wrote(Full))) && s.procs[p].WriteTakeoverResult? && s.journal.terminated
    ensures var t, pc := Next(s, Act(p, Wrote(Full))), s.procs[p];
      var record := Record(ReconciliationResult, s.now, StateDetail(if pc.safe then pc.seen else Unknown));
      && t.journal == File(s.journal.lines + [Entry(record)], true)
      && t.procs == s.procs[p := Return(Quiescent(pc.safe))]
  {
  }

  /** What prove_quiescent_takeover answers: true exactly if it saw Docker twice with no client active and nothing in
      transition, with the same fingerprint, no event in between, and at last HEALTHY, FAILED, NOT_STARTED or completed
      with unknown health. It answers false without a second look only if the first was not quiet. */
  lemma TakeoverMeansQuiescence(
    rules: Rules, attempt: SupervisorAttempt, processes: nat, now: int, ls: seq<Label>, p: nat, safe: bool)
    requires Run(rules, Init(attempt, processes, now), ls).Some? && p < processes
    requires p < |Run(rules, Init(attempt, processes, now), ls).value.procs|
    requires Run(rules, Init(attempt, processes, now), ls).value.procs[p] == Return(Quiescent(safe))
    ensures var call := Call(rules, Init(attempt, processes, now), ls, p);
      && |call| >= 2 && call[|call| - 1].at.WriteTakeoverResult? && call[|call| - 1].at.safe == safe
      && call[|call| - 1].answer.Wrote?
      && var looked := call[|call| - 2];
         && looked.answer.Saw?
         && (looked.at.ObserveFirst? ==>
               !safe && (looked.answer.view.clientActive || looked.answer.view.transitional))
         && (!looked.at.ObserveFirst? ==>
               && |call| >= 3 && looked.at.ObserveSecond?
               && call[|call| - 3].at.ObserveFirst? && call[|call| - 3].answer.Saw?
               && var first, second := call[|call| - 3].answer.view, looked.answer.view;
                  safe <==>
                    && !first.clientActive && !first.transitional && !second.clientActive && !second.transitional
                    && first.fingerprint == second.fingerprint && !looked.answer.events
                    && (second.state == Healthy || second.state == Failed || second.state == NotStarted
                        || second.state == CompletedHealthUnknown))
  {
    TookOverRun(rules, attempt, processes, now, ls, p);
    ReturnedTakeover(Call(rules, Init(attempt, processes, now), ls, p), safe);
  }

  lemma ReturnedTakeover(call: seq<Turn>, safe: bool)
    requires TookOver(Return(Quiescent(safe)), call)
    ensures |call| >= 2 && call[|call| - 1].at.WriteTakeoverResult? && call[|call| - 1].answer.Wrote?
    ensures var looked := call[|call| - 2];
      && looked.answer.Saw? && (looked.at.ObserveFirst? || looked.at.ObserveSecond?)
      && (looked.at.ObserveFirst? ==>
            !safe && (looked.answer.view.clientActive || looked.answer.view.transitional))
      && (looked.at.ObserveSecond? ==>
            && |call| >= 3 && call[|call| - 3].at.ObserveFirst? && call[|call| - 3].answer.Saw?
            && (safe <==> Quiescence(call[|call| - 3].answer.view, looked.answer.view, looked.answer.events)))
  {
    var before := call[..|call| - 1];
    assert Last(before) == call[|call| - 2];
    assert |before| >= 2 ==> before[|before| - 2] == call[|call| - 3];
  }
}
