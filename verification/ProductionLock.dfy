/** The single production lock row: acquire, renew, release, and the host's reconciliation stamp. The clock is read
    before the row lock is granted, so a transaction may act on a reading that is already old. */
module ProductionLock {
  import opened Wrappers

  const SUPERVISOR := "maoxx-production-deployment-supervisor"

  /** `reconciledToken` is the token that the three stale_reconciled columns were last stamped with. */
  datatype Lock = Lock(
    deployment: nat,
    owner: string,
    token: nat,
    acquiredAt: int,
    renewedAt: int,
    leaseExpiresAt: int,
    reconciledToken: Option<nat>)

  const MIN_LEASE := 5
  const MAX_LEASE := 900

  predicate ValidLease(leaseSeconds: int) {
    MIN_LEASE <= leaseSeconds <= MAX_LEASE
  }

  /** The check constraint of the table, tested at every write. */
  predicate Constrained(lock: Lock) {
    lock.leaseExpiresAt > lock.acquiredAt && lock.token > 0
  }

  function Checked(lock: Lock): Result<Lock, string> {
    if Constrained(lock) then Success(lock) else Failure("check_violation")
  }

  /** acquire_deployment_lock on the row it has locked. */
  function Acquire(row: Option<Lock>, deployment: nat, owner: string, now: int, leaseSeconds: int)
    : Result<Lock, string>
  {
    if owner != SUPERVISOR then Failure("unknown_or_ambiguous_executor_identity")
    else if !ValidLease(leaseSeconds) then Failure("invalid lock lease")
    else
      match row
      case None => Checked(Lock(deployment, owner, 1, now, now, now + leaseSeconds, None))
      case Some(lock) =>
        if lock.deployment == deployment && lock.owner == owner && lock.leaseExpiresAt > now then Success(lock)
        else if lock.leaseExpiresAt <= now then
          if lock.reconciledToken != Some(lock.token) then Failure("stale_lock_reconciliation_required")
          else Checked(lock.(deployment := deployment, owner := owner, token := lock.token + 1, acquiredAt := now,
                             renewedAt := now, leaseExpiresAt := now + leaseSeconds))
        else Failure("lock_conflict")
  }

  /** renew_deployment_lock. A stale reading may even bring the end of the lease forward, but not to before its
      beginning. */
  function Renew(row: Option<Lock>, deployment: nat, owner: string, token: nat, now: int, leaseSeconds: int)
    : Result<Lock, string>
  {
    if || row.None? || row.value.deployment != deployment || row.value.owner != owner || row.value.token != token
       || row.value.leaseExpiresAt <= now
    then Failure("lock_not_owned")
    else if !ValidLease(leaseSeconds) then Failure("invalid lock lease")
    else Checked(row.value.(renewedAt := now, leaseExpiresAt := now + leaseSeconds))
  }

  /** release_deployment_lock deletes the row; it does not ask whether the lease still runs. */
  function Release(row: Option<Lock>, deployment: nat, owner: string, token: nat): Result<(), string> {
    if row.None? || row.value.deployment != deployment || row.value.owner != owner || row.value.token != token then
      Failure("lock_not_owned")
    else Success(())
  }

  // ---------------------------------------------------------------- runs

  datatype Step =
    | Tick(seconds: nat)
    | Acquiring(deployment: nat, owner: string, now: int, leaseSeconds: int)
    | Renewing(deployment: nat, owner: string, token: nat, now: int, leaseSeconds: int)
    | Releasing(deployment: nat, owner: string, token: nat)
    | Reconciling

  /** `stamps` counts the reconciliations of the present row. */
  datatype System = System(row: Option<Lock>, clock: int, stamps: nat)

  function Install(s: System, written: Result<Lock, string>): System {
    match written
    case Success(lock) => System(Some(lock), s.clock, if s.row.None? then 0 else s.stamps)
    case Failure(_) => s
  }

  function Apply(s: System, step: Step): System {
    match step
    case Tick(seconds) => s.(clock := s.clock + seconds)
    case Acquiring(deployment, owner, now, lease) => Install(s, Acquire(s.row, deployment, owner, now, lease))
    case Renewing(deployment, owner, token, now, lease) =>
      Install(s, Renew(s.row, deployment, owner, token, now, lease))
    case Releasing(deployment, owner, token) =>
      if Release(s.row, deployment, owner, token).Success? then s.(row := None) else s
    case Reconciling =>
      match s.row
      case Some(lock) => s.(row := Some(lock.(reconciledToken := Some(lock.token))), stamps := s.stamps + 1)
      case None => s
  }

  /** A clock reading may be stale, but it is never ahead of the true time. */
  predicate Timely(s: System, step: Step) {
    && (step.Acquiring? ==> step.now <= s.clock)
    && (step.Renewing? ==> step.now <= s.clock)
  }

  ghost predicate Path(trace: seq<System>, steps: seq<Step>) {
    && |trace| == |steps| + 1
    && forall k | 0 <= k < |steps| :: Timely(trace[k], steps[k]) && trace[k + 1] == Apply(trace[k], steps[k])
  }

  ghost predicate Run(trace: seq<System>, steps: seq<Step>, start: int) {
    Path(trace, steps) && trace[0] == System(None, start, 0)
  }

  /** Every takeover of the present row has used up a reconciliation of its own, and an unused stamp is still in
      hand exactly when the stamped token is the current one. */
  predicate Sound(s: System) {
    s.row.Some? ==>
      var lock := s.row.value;
      && Constrained(lock) && lock.owner == SUPERVISOR
      && lock.acquiredAt <= s.clock && lock.renewedAt <= s.clock
      && lock.renewedAt + MIN_LEASE <= lock.leaseExpiresAt <= lock.renewedAt + MAX_LEASE
      && (lock.reconciledToken.Some? ==> lock.reconciledToken.value <= lock.token)
      && lock.token - 1 + (if lock.reconciledToken == Some(lock.token) then 1 else 0) <= s.stamps
  }

  lemma ApplyKeeps(s: System, step: Step)
    requires Sound(s) && Timely(s, step)
    ensures Sound(Apply(s, step))
  {
  }

  lemma {:induction false} PathSound(trace: seq<System>, steps: seq<Step>, k: nat)
    requires Path(trace, steps) && Sound(trace[0]) && k < |trace|
    ensures Sound(trace[k])
  {
    if k > 0 {
      PathSound(trace, steps, k - 1);
      ApplyKeeps(trace[k - 1], steps[k - 1]);
    }
  }

  lemma RunSound(trace: seq<System>, steps: seq<Step>, start: int, k: nat)
    requires Run(trace, steps, start) && k < |trace|
    ensures Sound(trace[k])
  {
    PathSound(trace, steps, k);
  }

  /** Takeovers of one row never outnumber its reconciliations. */
  lemma TakeoversWithinReconciliations(trace: seq<System>, steps: seq<Step>, start: int, k: nat)
    requires Run(trace, steps, start) && k < |trace| && trace[k].row.Some?
    ensures 1 <= trace[k].row.value.token <= trace[k].stamps + 1
  {
    RunSound(trace, steps, start, k);
  }

  /** No lease outlasts the longest one: a holder that stops renewing has lost it after 900 seconds at the latest. */
  lemma LeaseRunsOut(trace: seq<System>, steps: seq<Step>, start: int, i: nat, j: nat)
    requires Run(trace, steps, start) && i <= j < |trace| && trace[i].row.Some?
    requires trace[j].row == trace[i].row && trace[j].clock >= trace[i].clock + MAX_LEASE
    ensures trace[j].row.value.leaseExpiresAt <= trace[j].clock
  {
    RunSound(trace, steps, start, i);
  }

  /** A step that leaves a row in place changes its deployment or its token only as a takeover: the lease has truly
      expired however old the clock reading was, the current token had been reconciled, and the token rises by
      exactly one. */
  lemma OwnerChangesOnlyByTakeover(trace: seq<System>, steps: seq<Step>, start: int, k: nat)
    requires Run(trace, steps, start) && k < |steps| && trace[k].row.Some? && trace[k + 1].row.Some?
    ensures var before, after := trace[k].row.value, trace[k + 1].row.value;
      before.deployment != after.deployment || before.token != after.token ==>
        && steps[k].Acquiring? && after.deployment == steps[k].deployment
        && before.leaseExpiresAt <= trace[k].clock
        && before.reconciledToken == Some(before.token)
        && after.token == before.token + 1
        && after.reconciledToken != Some(after.token)
  {
    RunSound(trace, steps, start, k);
    assert trace[k + 1] == Apply(trace[k], steps[k]) && Timely(trace[k], steps[k]);
  }

  /** The row is there at every moment from i to j. */
  predicate Lives(trace: seq<System>, i: nat, j: nat)
    requires i <= j < |trace|
  {
    forall k | i <= k <= j :: trace[k].row.Some?
  }

  /** A fencing token: it never falls, and one token belongs to one deployment only. */
  predicate Fences(before: Lock, after: Lock) {
    before.token < after.token || (before.token == after.token && before.deployment == after.deployment)
  }

  lemma StepFences(s: System, step: Step)
    requires s.row.Some? && Apply(s, step).row.Some?
    ensures Fences(s.row.value, Apply(s, step).row.value)
  {
  }

  lemma {:induction false} PathFences(trace: seq<System>, steps: seq<Step>, i: nat, j: nat)
    requires Path(trace, steps) && i <= j < |trace| && Lives(trace, i, j)
    ensures Fences(trace[i].row.value, trace[j].row.value)
  {
    if i < j {
      PathFences(trace, steps, i, j - 1);
      assert trace[j] == Apply(trace[j - 1], steps[j - 1]);
      StepFences(trace[j - 1], steps[j - 1]);
    }
  }

  /** Within one row's life the token never falls, and one token belongs to one deployment only: that is what makes
      it a fencing token. */
  lemma TokenFences(trace: seq<System>, steps: seq<Step>, start: int, i: nat, j: nat)
    requires Run(trace, steps, start) && i <= j < |trace| && Lives(trace, i, j)
    ensures var before, after := trace[i].row.value, trace[j].row.value;
      && before.token <= after.token
      && (before.token == after.token ==> before.deployment == after.deployment)
  {
    PathFences(trace, steps, i, j);
  }

  // ---------------------------------------------------------------- what the row can come to say

  predicate RowIs(s: System, deployment: nat, token: nat) {
    s.row.Some? && s.row.value.deployment == deployment && s.row.value.token == token
  }

  /** Some path leads from s to t; if `held`, the row is there all the way. */
  ghost predicate Leads(s: System, t: System, held: bool) {
    exists trace, steps ::
      Path(trace, steps) && trace[0] == s && trace[|steps|] == t && (held ==> Lives(trace, 0, |steps|))
  }

  lemma LeadsNowhere(s: System, held: bool)
    requires held ==> s.row.Some?
    ensures Leads(s, s, held)
  {
    assert Path([s], []) && (held ==> Lives([s], 0, 0));
  }

  lemma LeadsOn(s: System, t: System, held: bool, step: Step)
    requires Leads(s, t, held) && Timely(t, step) && (held ==> Apply(t, step).row.Some?)
    ensures Leads(s, Apply(t, step), held)
  {
    var trace, steps :|
      Path(trace, steps) && trace[0] == s && trace[|steps|] == t && (held ==> Lives(trace, 0, |steps|));
    var longer, more := trace + [Apply(t, step)], steps + [step];
    forall k | 0 <= k < |more| ensures Timely(longer[k], more[k]) && longer[k + 1] == Apply(longer[k], more[k]) {
      if k < |steps| {
        assert Timely(trace[k], steps[k]) && trace[k + 1] == Apply(trace[k], steps[k]);
      }
    }
    assert Path(longer, more) && longer[0] == s && longer[|more|] == Apply(t, step);
    assert held ==> Lives(longer, 0, |more|);
  }

  /** After the longest lease and a reconciliation any deployment takes the row over. */
  lemma TakenOver(s: System, t: System, held: bool, deployment: nat) returns (u: System)
    requires Leads(s, t, held) && t.row.Some? && Sound(t)
    ensures Leads(s, u, held) && Sound(u) && RowIs(u, deployment, t.row.value.token + 1)
  {
    var later := Apply(t, Tick(MAX_LEASE));
    LeadsOn(s, t, held, Tick(MAX_LEASE));
    ApplyKeeps(t, Tick(MAX_LEASE));
    var stamped := Apply(later, Reconciling);
    LeadsOn(s, later, held, Reconciling);
    ApplyKeeps(later, Reconciling);
    var take := Acquiring(deployment, SUPERVISOR, later.clock, MAX_LEASE);
    u := Apply(stamped, take);
    LeadsOn(s, stamped, held, take);
    ApplyKeeps(stamped, take);
  }

  lemma {:induction false} Climbs(s: System, t: System, held: bool, deployment: nat, token: nat) returns (u: System)
    requires Leads(s, t, held) && t.row.Some? && Sound(t) && t.row.value.token < token
    ensures Leads(s, u, held) && RowIs(u, deployment, token)
    decreases token - t.row.value.token
  {
    u := TakenOver(s, t, held, deployment);
    if u.row.value.token < token {
      u := Climbs(s, u, held, deployment, token);
    }
  }

  lemma Released(s: System, deployment: nat) returns (t: System)
    requires Sound(s) && s.row.Some?
    ensures Leads(s, t, false) && Sound(t) && RowIs(t, deployment, 1)
  {
    var lock := s.row.value;
    var free := Apply(s, Releasing(lock.deployment, SUPERVISOR, lock.token));
    LeadsNowhere(s, false);
    LeadsOn(s, s, false, Releasing(lock.deployment, SUPERVISOR, lock.token));
    var acquire := Acquiring(deployment, SUPERVISOR, s.clock, MAX_LEASE);
    t := Apply(free, acquire);
    LeadsOn(s, free, false, acquire);
    ApplyKeeps(free, acquire);
  }

  /** What a held row can come to say, from any reachable moment on: while it is never released, exactly the present
      token for its own deployment and every higher token for any; with a release, every token for any deployment, so
      that nothing is fenced across it. */
  lemma TokensRestartExactlyAfterRelease(
    trace: seq<System>, steps: seq<Step>, start: int, k: nat, deployment: nat, token: nat)
    requires Run(trace, steps, start) && k < |trace| && trace[k].row.Some?
    ensures (exists t :: Leads(trace[k], t, true) && RowIs(t, deployment, token))
       <==> token > trace[k].row.value.token || RowIs(trace[k], deployment, token)
    ensures (exists t :: Leads(trace[k], t, false) && RowIs(t, deployment, token)) <==> token > 0
  {
    var s := trace[k];
    RunSound(trace, steps, start, k);
    forall t | Leads(s, t, true) && RowIs(t, deployment, token)
      ensures token > s.row.value.token || RowIs(s, deployment, token)
    {
      HeldFences(s, t);
    }
    forall t | Leads(s, t, false) && RowIs(t, deployment, token) ensures token > 0 {
      LeadsSound(s, t);
    }
    if token > s.row.value.token || RowIs(s, deployment, token) {
      HeldReaches(s, deployment, token);
    }
    if token > 0 {
      ReleasedReaches(s, deployment, token);
    }
  }

  lemma HeldFences(s: System, t: System)
    requires Leads(s, t, true)
    ensures s.row.Some? && t.row.Some? && Fences(s.row.value, t.row.value)
  {
    var trace, steps :| Path(trace, steps) && trace[0] == s && trace[|steps|] == t && Lives(trace, 0, |steps|);
    PathFences(trace, steps, 0, |steps|);
  }

  lemma LeadsSound(s: System, t: System)
    requires Sound(s) && Leads(s, t, false)
    ensures Sound(t)
  {
    var trace, steps :| Path(trace, steps) && trace[0] == s && trace[|steps|] == t;
    PathSound(trace, steps, |steps|);
  }

  lemma HeldReaches(s: System, deployment: nat, token: nat)
    requires Sound(s) && s.row.Some? && (token > s.row.value.token || RowIs(s, deployment, token))
    ensures exists t :: Leads(s, t, true) && RowIs(t, deployment, token)
  {
    LeadsNowhere(s, true);
    if token > s.row.value.token {
      var t := Climbs(s, s, true, deployment, token);
    }
  }

  lemma ReleasedReaches(s: System, deployment: nat, token: nat)
    requires Sound(s) && s.row.Some? && token > 0
    ensures exists t :: Leads(s, t, false) && RowIs(t, deployment, token)
  {
    var t := Released(s, deployment);
    if token > 1 {
      t := Climbs(s, t, false, deployment, token);
    }
  }

  /** A live lease is safe from everyone else: while it truly runs, every other deployment is refused. */
  lemma LiveLeaseExcludes(s: System, deployment: nat, owner: string, now: int, leaseSeconds: int)
    requires s.row.Some? && s.row.value.leaseExpiresAt > s.clock && now <= s.clock
    requires s.row.value.deployment != deployment
    ensures Acquire(s.row, deployment, owner, now, leaseSeconds).Failure?
  {
  }

  /** A clock reading made before the wait can shorten a lease: exactly when reading and lease length add up to less
      than the lease already granted. The new lease can even be over when it is granted: exactly when the wait after
      the reading was at least as long as the lease. */
  lemma RenewShortensExactly(s: System, lock: Lock, now: int, leaseSeconds: int)
    requires s.row == Some(lock) && ValidLease(leaseSeconds) && now <= s.clock && lock.leaseExpiresAt > now
    ensures var renewed := Renew(s.row, lock.deployment, lock.owner, lock.token, now, leaseSeconds);
      && (renewed.Success? <==> now + leaseSeconds > lock.acquiredAt && lock.token > 0)
      && (renewed.Success? ==>
            && (renewed.value.leaseExpiresAt < lock.leaseExpiresAt <==> now + leaseSeconds < lock.leaseExpiresAt)
            && (renewed.value.leaseExpiresAt <= s.clock <==> s.clock - now >= leaseSeconds))
  {
  }

  // ---------------------------------------------------------------- each transaction, column by column

  /** acquire_deployment_lock, by the supervisor and for five to 900 seconds only: a free lock is taken with token 1; a
      deployment that holds it keeps the row as it is; a lease that is over is taken over with the next token, if its
      own token was reconciled; anything else is refused. */
  lemma AcquiresExactly(row: Option<Lock>, deployment: nat, owner: string, now: int, leaseSeconds: int)
    requires row.Some? ==> row.value.token > 0 && row.value.owner == "maoxx-production-deployment-supervisor"
    ensures var taken := Acquire(row, deployment, owner, now, leaseSeconds);
      var allowed := owner == "maoxx-production-deployment-supervisor" && 5 <= leaseSeconds <= 900;
      && (taken.Success? <==>
            && allowed
            && (row.None? || (row.value.deployment == deployment && now < row.value.leaseExpiresAt)
                || (row.value.leaseExpiresAt <= now && row.value.reconciledToken == Some(row.value.token))))
      && (taken.Success? ==>
            taken.value ==
              if row.None? then Lock(deployment, owner, 1, now, now, now + leaseSeconds, None)
              else if now < row.value.leaseExpiresAt then row.value
              else Lock(deployment, owner, row.value.token + 1, now, now, now + leaseSeconds,
                        row.value.reconciledToken))
      && (taken.Failure? && allowed ==>
            taken.error ==
              if row.value.leaseExpiresAt <= now then "stale_lock_reconciliation_required" else "lock_conflict")
  {
  }

  /** renew_deployment_lock: only the holder, by deployment, owner and token, and only while the lease runs, for five to
      900 seconds; the two times are all that changes. It is refused as not owned, before the length is looked at. */
  lemma RenewsExactly(
    row: Option<Lock>, deployment: nat, owner: string, token: nat, now: int, leaseSeconds: int)
    ensures var renewed := Renew(row, deployment, owner, token, now, leaseSeconds);
      var owned :=
        && row.Some? && row.value.deployment == deployment && row.value.owner == owner && row.value.token == token
        && now < row.value.leaseExpiresAt;
      && (renewed.Success? <==>
            owned && 5 <= leaseSeconds <= 900 && now + leaseSeconds > row.value.acquiredAt && row.value.token > 0)
      && (renewed.Success? ==>
            renewed.value == Lock(deployment, owner, token, row.value.acquiredAt, now, now + leaseSeconds,
                                  row.value.reconciledToken))
      && (!owned ==> renewed == Failure("lock_not_owned"))
      && (owned && !(5 <= leaseSeconds <= 900) ==> renewed == Failure("invalid lock lease"))
  {
  }

  /** release_deployment_lock: only the holder, by deployment, owner and token, whether or not the lease still runs. */
  lemma ReleasesExactly(s: System, deployment: nat, owner: string, token: nat)
    ensures var owned :=
        && s.row.Some? && s.row.value.deployment == deployment && s.row.value.owner == owner
        && s.row.value.token == token;
      && (Release(s.row, deployment, owner, token).Success? <==> owned)
      && (!owned ==> Release(s.row, deployment, owner, token) == Failure("lock_not_owned"))
      && Apply(s, Releasing(deployment, owner, token)) == if owned then System(None, s.clock, s.stamps) else s
  {
  }

  // ---------------------------------------------------------------- the row, in place

  class DeploymentLockRow {
    var present: bool
    var deployment: nat
    var owner: string
    var token: nat
    var acquiredAt: int
    var renewedAt: int
    var leaseExpiresAt: int
    var reconciledToken: Option<nat>

    function View(): Option<Lock>
      reads this
    {
      if present then Some(Lock(deployment, owner, token, acquiredAt, renewedAt, leaseExpiresAt, reconciledToken))
      else None
    }

    constructor ()
      ensures View().None?
    {
      present, deployment, owner, token, acquiredAt, renewedAt := false, 0, "", 0, 0, 0;
      leaseExpiresAt, reconciledToken := 0, None;
    }

    method AcquireDeploymentLock(deployment: nat, owner: string, now: int, leaseSeconds: int)
      returns (r: Result<nat, string>)
      modifies this
      ensures var spec := Acquire(old(View()), deployment, owner, now, leaseSeconds);
        match spec
        case Success(lock) => View() == Some(lock) && r == Success(lock.token)
        case Failure(e) => View() == old(View()) && r == Failure(e)
    {
      if owner != SUPERVISOR {
        return Failure("unknown_or_ambiguous_executor_identity");
      }
      if !ValidLease(leaseSeconds) {
        return Failure("invalid lock lease");
      }
      if !present {
        present, this.deployment, this.owner, token := true, deployment, owner, 1;
        acquiredAt, renewedAt, leaseExpiresAt, reconciledToken := now, now, now + leaseSeconds, None;
      } else if this.deployment == deployment && this.owner == owner && leaseExpiresAt > now {
      } else if leaseExpiresAt <= now {
        if reconciledToken != Some(token) {
          return Failure("stale_lock_reconciliation_required");
        }
        this.deployment, this.owner, token := deployment, owner, token + 1;
        acquiredAt, renewedAt, leaseExpiresAt := now, now, now + leaseSeconds;
      } else {
        return Failure("lock_conflict");
      }
      r := Success(token);
    }

    method RenewDeploymentLock(deployment: nat, owner: string, token: nat, now: int, leaseSeconds: int)
      returns (r: Result<(), string>)
      modifies this`renewedAt, this`leaseExpiresAt
      ensures var spec := Renew(old(View()), deployment, owner, token, now, leaseSeconds);
        match spec
        case Success(lock) => View() == Some(lock) && r.Success?
        case Failure(e) => View() == old(View()) && r == Failure(e)
    {
      if || !present || this.deployment != deployment || this.owner != owner || this.token != token
         || leaseExpiresAt <= now {
        return Failure("lock_not_owned");
      }
      if !ValidLease(leaseSeconds) {
        return Failure("invalid lock lease");
      }
      var granted := leaseExpiresAt;
      var renewed := renewedAt;
      renewedAt, leaseExpiresAt := now, now + leaseSeconds;
      if leaseExpiresAt <= acquiredAt || this.token == 0 {
        renewedAt, leaseExpiresAt := renewed, granted;
        return Failure("check_violation");
      }
      r := Success(());
    }

    method ReleaseDeploymentLock(deployment: nat, owner: string, token: nat) returns (r: Result<(), string>)
      modifies this`present
      ensures r == Release(old(View()), deployment, owner, token)
      ensures View() == if r.Success? then None else old(View())
    {
      if !present || this.deployment != deployment || this.owner != owner || this.token != token {
        return Failure("lock_not_owned");
      }
      present := false;
      r := Success(());
    }
  }
}
