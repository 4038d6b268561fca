/** Decision transactions running side by side. Each one looks for its event, waits for the row lock of its request,
    reads the clock, looks for a decision, and inserts; in between, others commit. */
module ApprovalProtocol {
  import opened Wrappers
  import opened UuidText
  import opened ApprovalText
  import opened ApprovalService

  /** Where a transaction is. From Holding on it has the row lock of its request. */
  datatype Phase =
    | Begun
    | WantsRow
    | Holding
    | Timed(now: int)
    | Checked(now: int)
    | Done(outcome: Outcome)

  /** What it is there for: to decide, or to answer a "wait". */
  datatype Job = Deciding(call: Call, id: nat) | Inspecting(request: Uuid)

  datatype Txn = Txn(job: Job, phase: Phase)

  datatype System = System(approvals: Approvals, clock: int, txns: map<nat, Txn>)

  datatype Step =
    | Tick(seconds: nat)
    | NewRequest(id: Uuid, request: Request)
    | Begin(txn: nat, job: Job)
    | LookForEvent(txn: nat)
    | LockRow(txn: nat)
    | ReadClock(txn: nat)
    | LookForDecision(txn: nat)
    | Insert(txn: nat)
    | Abort(txn: nat)

  function RequestOf(job: Job): Uuid {
    if job.Deciding? then job.call.command.requestId else job.request
  }

  predicate HoldsRow(t: Txn) {
    t.phase.Holding? || t.phase.Timed? || t.phase.Checked?
  }

  predicate RowFree(s: System, request: Uuid) {
    forall txn <- s.txns.Keys :: HoldsRow(s.txns[txn]) ==> RequestOf(s.txns[txn].job) != request
  }

  function Move(s: System, txn: nat, phase: Phase): System
    requires txn in s.txns
  {
    s.(txns := s.txns[txn := s.txns[txn].(phase := phase)])
  }

  function TxnOf(step: Step): Option<nat> {
    match step
    case LookForEvent(txn) => Some(txn)
    case LockRow(txn) => Some(txn)
    case ReadClock(txn) => Some(txn)
    case LookForDecision(txn) => Some(txn)
    case Insert(txn) => Some(txn)
    case Abort(txn) => Some(txn)
    case _ => None
  }

  predicate Enabled(s: System, step: Step) {
    match step
    case Tick(_) => true
    case NewRequest(id, request) =>
      ApprovalService.Insert(s.approvals, id, request).Success? && request.expiresAt <= request.requestedAt + MAX_TTL
    case Begin(txn, _) => txn !in s.txns
    case LookForEvent(txn) => txn in s.txns && s.txns[txn].phase.Begun?
    case LockRow(txn) => txn in s.txns && s.txns[txn].phase.WantsRow? && RowFree(s, RequestOf(s.txns[txn].job))
    case ReadClock(txn) => txn in s.txns && s.txns[txn].phase.Holding?
    case LookForDecision(txn) => txn in s.txns && s.txns[txn].phase.Timed?
    case Insert(txn) => txn in s.txns && s.txns[txn].phase.Checked?
    case Abort(txn) => txn in s.txns && !s.txns[txn].phase.Done?
  }

  /** The answer of LookForEvent; an inspecting transaction has no event to look for. */
  function AfterEvent(a: Approvals, job: Job): Phase {
    if job.Inspecting? then WantsRow
    else if !ValidEvent(job.call.event) then Done(InvalidEvent)
    else
      match EventOutcome(a, job.call)
      case Some(outcome) => Done(outcome)
      case None => WantsRow
  }

  function AfterLock(a: Approvals, job: Job): Phase {
    var request := RequestOf(job);
    if request !in a.requests then Done(UnknownRequest)
    else if job.Deciding? && !Separated(a.requests[request], job.call) then Done(Unauthorized)
    else Holding
  }

  function AfterClock(a: Approvals, job: Job, now: int): Phase {
    var request := RequestOf(job);
    if request in a.requests && now >= a.requests[request].expiresAt then Done(Expired) else Timed(now)
  }

  function AfterDecision(a: Approvals, job: Job, now: int): Phase {
    if RequestOf(job) in a.decisions then Done(AlreadyDecided)
    else if job.Inspecting? then Done(StillWaiting)
    else Checked(now)
  }

  function Apply(s: System, step: Step): System
    requires Enabled(s, step)
  {
    match step
    case Tick(seconds) => s.(clock := s.clock + seconds)
    case NewRequest(id, request) => s.(approvals := ApprovalService.Insert(s.approvals, id, request).value)
    case Begin(txn, job) => s.(txns := s.txns[txn := Txn(job, Begun)])
    case LookForEvent(txn) => Move(s, txn, AfterEvent(s.approvals, s.txns[txn].job))
    case LockRow(txn) => Move(s, txn, AfterLock(s.approvals, s.txns[txn].job))
    case ReadClock(txn) => Move(s, txn, AfterClock(s.approvals, s.txns[txn].job, s.clock))
    case LookForDecision(txn) => Move(s, txn, AfterDecision(s.approvals, s.txns[txn].job, s.txns[txn].phase.now))
    case Insert(txn) =>
      var t := s.txns[txn];
      if t.job.Inspecting? then Move(s, txn, Done(StillWaiting))
      else
        var written := InsertDecision(s.approvals, t.job.call, t.job.id, t.phase.now);
        if written.None? then Move(s, txn, Done(Conflict))
        else Move(s.(approvals := written.value), txn, Done(Recorded(t.job.call.command.decision)))
    case Abort(txn) => Move(s, txn, Done(Unavailable))
  }

  ghost predicate Run(trace: seq<System>, steps: seq<Step>, start: int) {
    && |trace| == |steps| + 1 && trace[0] == System(NO_APPROVALS, start, map[])
    && forall k | 0 <= k < |steps| :: Enabled(trace[k], steps[k]) && trace[k + 1] == Apply(trace[k], steps[k])
  }

  // ---------------------------------------------------------------- the invariant

  /** What a transaction already knows stays true until it uses it. */
  predicate Knows(s: System, t: Txn) {
    var request := RequestOf(t.job);
    && (t.job.Deciding? && !t.phase.Begun? && !t.phase.Done? ==> ValidEvent(t.job.call.event))
    && (HoldsRow(t) ==>
          && request in s.approvals.requests
          && (t.job.Deciding? ==> Separated(s.approvals.requests[request], t.job.call)))
    && (t.phase.Timed? || t.phase.Checked? ==>
          t.phase.now <= s.clock && t.phase.now < s.approvals.requests[request].expiresAt)
    && (t.phase.Checked? ==> t.job.Deciding? && request !in s.approvals.decisions)
  }

  predicate OneHolder(s: System) {
    forall a, b | a in s.txns && b in s.txns && a != b && HoldsRow(s.txns[a]) && HoldsRow(s.txns[b]) ::
      RequestOf(s.txns[a].job) != RequestOf(s.txns[b].job)
  }

  ghost predicate Safe(s: System) {
    && Sound(s.approvals) && OneHolder(s)
    && (forall txn <- s.txns.Keys :: Knows(s, s.txns[txn]))
    && forall request <- s.approvals.decisions.Keys :: s.approvals.decisions[request].decidedAt <= s.clock
  }

  /** The insertion of a decision takes away no other transaction's knowledge: nobody else holds that row. */
  lemma InsertKeepsKnowledge(s: System, txn: nat, other: nat)
    requires Safe(s) && Enabled(s, Insert(txn)) && other in s.txns && other != txn
    ensures Knows(Apply(s, Insert(txn)), s.txns[other])
  {
    var t, o := s.txns[txn], s.txns[other];
    assert Knows(s, t) && Knows(s, o);
    if o.phase.Checked? {
      assert HoldsRow(t) && HoldsRow(o);
    }
  }

  lemma InsertIsRecord(s: System, txn: nat)
    requires Sound(s.approvals) && Enabled(s, Insert(txn)) && Knows(s, s.txns[txn])
    ensures Apply(s, Insert(txn)).approvals == s.approvals
      || (s.txns[txn].job.Deciding?
          && (Apply(s, Insert(txn)).approvals, Recorded(s.txns[txn].job.call.command.decision))
             == Record(s.approvals, s.txns[txn].job.call, s.txns[txn].job.id, s.txns[txn].phase.now))
    ensures Sound(Apply(s, Insert(txn)).approvals)
  {
    var t := s.txns[txn];
    RecordsExactly(s.approvals, t.job.call, t.job.id, t.phase.now);
    RecordKeeps(s.approvals, t.job.call, t.job.id, t.phase.now);
  }

  lemma InsertedInTime(s: System, txn: nat)
    requires Safe(s) && Enabled(s, Insert(txn))
    ensures var after := Apply(s, Insert(txn));
      forall request <- after.approvals.decisions.Keys :: after.approvals.decisions[request].decidedAt <= s.clock
  {
    assert Knows(s, s.txns[txn]);
  }

  lemma InsertKeepsSafe(s: System, txn: nat)
    requires Safe(s) && Enabled(s, Insert(txn))
    ensures Safe(Apply(s, Insert(txn)))
  {
    var after := Apply(s, Insert(txn));
    assert Sound(after.approvals) by {
      assert Knows(s, s.txns[txn]);
      InsertIsRecord(s, txn);
    }
    InsertedInTime(s, txn);
    InsertKeepsAllKnowledge(s, txn);
    MoveKeepsOneHolder(s, txn, after.txns[txn].phase);
  }

  lemma InsertKeepsAllKnowledge(s: System, txn: nat)
    requires Safe(s) && Enabled(s, Insert(txn))
    ensures var after := Apply(s, Insert(txn)); forall other <- after.txns.Keys :: Knows(after, after.txns[other])
  {
    var after := Apply(s, Insert(txn));
    forall other <- after.txns.Keys ensures Knows(after, after.txns[other]) {
      if other != txn {
        InsertKeepsKnowledge(s, txn, other);
      }
    }
  }

  lemma MoveKeepsOneHolder(s: System, txn: nat, phase: Phase)
    requires OneHolder(s) && txn in s.txns && !HoldsRow(s.txns[txn].(phase := phase))
    ensures OneHolder(Move(s, txn, phase))
  {
  }

  lemma NewRequestKeepsSafe(s: System, id: Uuid, request: Request)
    requires Safe(s) && Enabled(s, NewRequest(id, request))
    ensures Safe(Apply(s, NewRequest(id, request)))
  {
    var after := Apply(s, NewRequest(id, request));
    InsertKeeps(s.approvals, id, request);
    forall txn <- after.txns.Keys ensures Knows(after, after.txns[txn]) {
      assert Knows(s, s.txns[txn]);
    }
  }

  /** A step of one transaction that leaves the tables alone. */
  lemma MoveKeepsSafe(s: System, txn: nat, phase: Phase)
    requires Safe(s) && txn in s.txns && Knows(s, s.txns[txn].(phase := phase))
    requires HoldsRow(s.txns[txn].(phase := phase)) ==> HoldsRow(s.txns[txn]) || RowFree(s, RequestOf(s.txns[txn].job))
    ensures Safe(Move(s, txn, phase))
  {
    var after := Move(s, txn, phase);
    forall other <- after.txns.Keys ensures Knows(after, after.txns[other]) {
      if other != txn {
        assert Knows(s, s.txns[other]);
      }
    }
  }

  lemma TickKeepsSafe(s: System, step: Step)
    requires Safe(s) && Enabled(s, step) && (step.Tick? || step.Begin?)
    ensures Safe(Apply(s, step))
  {
    var after := Apply(s, step);
    forall txn <- after.txns.Keys ensures Knows(after, after.txns[txn]) {
      if txn in s.txns {
        assert Knows(s, s.txns[txn]);
      }
    }
  }

  lemma StepKeepsSafe(s: System, step: Step)
    requires Safe(s) && Enabled(s, step)
    ensures Safe(Apply(s, step))
  {
    match step
    case Tick(_) => TickKeepsSafe(s, step);
    case Begin(_, _) => TickKeepsSafe(s, step);
    case NewRequest(id, request) => NewRequestKeepsSafe(s, id, request);
    case Insert(txn) => InsertKeepsSafe(s, txn);
    case LookForEvent(txn) => MoveKeepsSafe(s, txn, AfterEvent(s.approvals, s.txns[txn].job));
    case LockRow(txn) =>
      assert Knows(s, s.txns[txn]);
      MoveKeepsSafe(s, txn, AfterLock(s.approvals, s.txns[txn].job));
    case ReadClock(txn) =>
      assert Knows(s, s.txns[txn]);
      MoveKeepsSafe(s, txn, AfterClock(s.approvals, s.txns[txn].job, s.clock));
    case LookForDecision(txn) =>
      assert Knows(s, s.txns[txn]);
      MoveKeepsSafe(s, txn, AfterDecision(s.approvals, s.txns[txn].job, s.txns[txn].phase.now));
    case Abort(txn) => MoveKeepsSafe(s, txn, Done(Unavailable));
  }

  lemma {:induction false} RunSafe(trace: seq<System>, steps: seq<Step>, start: int, k: nat)
    requires Run(trace, steps, start) && k < |trace|
    ensures Safe(trace[k])
  {
    if k > 0 {
      RunSafe(trace, steps, start, k - 1);
      StepKeepsSafe(trace[k - 1], steps[k - 1]);
    }
  }

  // ---------------------------------------------------------------- what every interleaving keeps

  /** In every interleaving, no request and no event has more than one decision, and every decision was taken strictly
      before its request expired and not after the present moment, however long its row lock was awaited; a
      decision on a deployment comes from a mapped identity other than the requester. */
  lemma DecisionsInTime(trace: seq<System>, steps: seq<Step>, start: int, k: nat)
    requires Run(trace, steps, start) && k < |trace|
    ensures var a := trace[k].approvals;
      && (forall r, q | r in a.decisions && q in a.decisions && r != q :: a.decisions[r].event != a.decisions[q].event)
      && forall r | r in a.decisions ::
           && r in a.requests
           && a.decisions[r].decidedAt < a.requests[r].expiresAt <= a.requests[r].requestedAt + MAX_TTL
           && a.decisions[r].decidedAt <= trace[k].clock
           && (a.requests[r].deployment.Some? ==>
                 a.decisions[r].mapping.Some? && a.decisions[r].actor != a.requests[r].user)
  {
    RunSafe(trace, steps, start, k);
    var a := trace[k].approvals;
    forall r | r in a.decisions ensures Decided(a, r, a.decisions[r]) && RequestIndexed(a, r) {
      assert DecisionSound(a, r) && RequestIndexed(a, r);
    }
  }

  /** Concurrency adds nothing to the sequential service: a step either leaves both tables as they are, inserts a
      request, or does to them exactly what record_approval_decision would do if it ran alone at that moment. */
  lemma ConcurrentIsAtomic(trace: seq<System>, steps: seq<Step>, start: int, k: nat)
    requires Run(trace, steps, start) && k < |steps|
    ensures var a, b := trace[k].approvals, trace[k + 1].approvals;
      || a == b
      || (steps[k].NewRequest? && b.decisions == a.decisions)
      || (steps[k].Insert? && steps[k].txn in trace[k].txns
          && var t := trace[k].txns[steps[k].txn];
             && t.job.Deciding? && t.phase.Checked? && t.phase.now <= trace[k].clock
             && (b, Recorded(t.job.call.command.decision)) == Record(a, t.job.call, t.job.id, t.phase.now))
  {
    RunSafe(trace, steps, start, k);
    assert Enabled(trace[k], steps[k]) && trace[k + 1] == Apply(trace[k], steps[k]);
    if steps[k].Insert? {
      assert Knows(trace[k], trace[k].txns[steps[k].txn]);
      InsertIsRecord(trace[k], steps[k].txn);
    }
  }

  /** Waiting leaves no trace: no step of an inspecting transaction changes the tables. */
  lemma WaitIsSilent(trace: seq<System>, steps: seq<Step>, start: int, k: nat)
    requires Run(trace, steps, start) && k < |steps| && TxnOf(steps[k]).Some?
    requires TxnOf(steps[k]).value in trace[k].txns && trace[k].txns[TxnOf(steps[k]).value].job.Inspecting?
    ensures trace[k + 1].approvals == trace[k].approvals
  {
    assert trace[k + 1] == Apply(trace[k], steps[k]);
  }

  /** Under the row lock the unique request can no longer be violated: an insertion is refused exactly when its event,
      looked for before the lock, was meanwhile used for another request, or its row id is taken. */
  lemma ConflictsExactly(trace: seq<System>, steps: seq<Step>, start: int, k: nat, txn: nat)
    requires Run(trace, steps, start) && k < |steps| && steps[k] == Insert(txn)
    requires txn in trace[k].txns
    ensures var t, a := trace[k].txns[txn], trace[k].approvals;
      && t.job.Deciding? && t.phase.Checked? && txn in trace[k + 1].txns
      && (trace[k + 1].txns[txn].phase == Done(Conflict) <==>
            (t.job.call.event in a.events && a.events[t.job.call.event] != t.job.call.command.requestId)
            || t.job.id in a.decisionIds)
  {
    RunSafe(trace, steps, start, k);
    assert Enabled(trace[k], steps[k]) && trace[k + 1] == Apply(trace[k], steps[k]);
    assert Knows(trace[k], trace[k].txns[txn]);
    assert trace[k].txns[txn].job.Deciding?;
    assert EventKnown(trace[k].approvals, trace[k].txns[txn].job.call.event);
  }

  lemma {:induction false} DecisionsStay(
    trace: seq<System>, steps: seq<Step>, start: int, i: nat, j: nat, request: Uuid)
    requires Run(trace, steps, start) && i <= j < |trace| && request in trace[i].approvals.decisions
    ensures request in trace[j].approvals.decisions
    ensures trace[j].approvals.decisions[request] == trace[i].approvals.decisions[request]
  {
    if i < j {
      DecisionsStay(trace, steps, start, i, j - 1, request);
      assert Enabled(trace[j - 1], steps[j - 1]) && trace[j] == Apply(trace[j - 1], steps[j - 1]);
    }
  }

  lemma RecordedRow(s: System, txn: nat)
    requires Safe(s) && Enabled(s, Insert(txn))
    requires var after := Apply(s, Insert(txn)).txns[txn].phase; after.Done? && after.outcome.Recorded?
    ensures var t, a := s.txns[txn], Apply(s, Insert(txn)).approvals;
      && t.job.Deciding? && t.phase.Checked? && ValidEvent(t.job.call.event)
      && t.job.call.command.requestId in a.decisions
      && a.decisions[t.job.call.command.requestId] == RowOf(t.job.call, t.job.id, t.phase.now)
  {
    assert Knows(s, s.txns[txn]);
  }

  lemma KnownEventIsDuplicate(a: Approvals, call: Call, id: nat, now: int)
    requires Sound(a) && ValidEvent(call.event) && call.command.requestId in a.decisions
    requires a.decisions[call.command.requestId] == RowOf(call, id, now)
    ensures EventOutcome(a, call) == Some(Duplicate(call.command.decision))
  {
    assert DecisionSound(a, call.command.requestId);
  }

  /** Replaying a recorded callback, at any later moment and among any other transactions, is answered "duplicate" with
      the same decision and changes nothing. */
  lemma ReplayIsDuplicate(
    trace: seq<System>, steps: seq<Step>, start: int, i: nat, txn: nat, j: nat, replay: nat)
    requires Run(trace, steps, start) && i < j < |steps|
    requires steps[i] == Insert(txn) && txn in trace[i].txns && txn in trace[i + 1].txns
    requires trace[i + 1].txns[txn].phase.Done? && trace[i + 1].txns[txn].phase.outcome.Recorded?
    requires steps[j] == LookForEvent(replay) && replay in trace[j].txns && trace[j].txns[replay].job.Deciding?
    requires trace[j].txns[replay].job.call == trace[i].txns[txn].job.call
    ensures trace[j + 1].approvals == trace[j].approvals && replay in trace[j + 1].txns
    ensures trace[j + 1].txns[replay].phase == Done(Duplicate(trace[i].txns[txn].job.call.command.decision))
  {
    var t := trace[i].txns[txn];
    RunSafe(trace, steps, start, i);
    RunSafe(trace, steps, start, j);
    assert Enabled(trace[i], steps[i]) && trace[i + 1] == Apply(trace[i], steps[i]);
    RecordedRow(trace[i], txn);
    DecisionsStay(trace, steps, start, i + 1, j, t.job.call.command.requestId);
    KnownEventIsDuplicate(trace[j].approvals, t.job.call, t.job.id, t.phase.now);
    assert Enabled(trace[j], steps[j]) && trace[j + 1] == Apply(trace[j], steps[j]);
  }
}
