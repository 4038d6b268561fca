/** The versioned mapping from external identities to principals: assign_feishu_identity, provision_principal and
    the reader resolve_feishu_principal, over the table external_identities and its two unique indexes. */
module IdentityHistory {
  import opened Wrappers

  datatype PrincipalType = Human | ServiceAccount | Executor

  datatype Principal = Principal(kind: PrincipalType, key: string, user: Option<nat>)

  /** The fingerprints of a tenant and of an open id in it. */
  datatype Subject = Subject(tenant: string, openId: string)

  /** The unique key (tenant, subject, version), which also names the row. */
  datatype Key = Key(subject: Subject, version: int)

  datatype Mapping = Mapping(principal: nat, validFrom: int, validTo: Option<int>)

  /** `rows` is the table under its version index; `active` is the partial index over rows without valid_to. */
  datatype Directory = Directory(
    principals: map<nat, Principal>,
    rows: map<Key, Mapping>,
    active: map<Subject, int>)

  const EMPTY := Directory(map[], map[], map[])

  // ---------------------------------------------------------------- transactions

  /** provision_principal; the unique constraints and the type check are its commit guard. */
  function Provision(d: Directory, id: nat, kind: PrincipalType, key: string, user: Option<nat>)
    : Result<Directory, string>
  {
    if kind.Human? != user.Some? then Failure("invalid_principal_user_binding")
    else if || id in d.principals
            || (exists p <- d.principals.Values :: p.key == key || (user.Some? && p.user == user))
    then Failure("unique_violation")
    else Success(d.(principals := d.principals[id := Principal(kind, key, user)]))
  }

  predicate IsHuman(d: Directory, principal: nat) {
    principal in d.principals && d.principals[principal].kind.Human?
  }

  /** What the locking read of the open row returns. A transaction that waited for a row which its competitor
      closed meanwhile finds no open row at all: `blind`. */
  function Current(d: Directory, s: Subject, blind: bool): Option<int> {
    if !blind && s in d.active then Some(d.active[s]) else None
  }

  function OpenRow(principal: nat, now: int): Mapping {
    Mapping(principal, now, None)
  }

  /** assign_feishu_identity. `now` was read before the row lock and may be older than the open row. The closing
      must lie after the opening (check constraint and history trigger), the version and the open row must be
      unique. */
  function Assign(d: Directory, s: Subject, principal: nat, now: int, blind: bool): Result<Directory, string>
    requires Indexed(d)
  {
    if !IsHuman(d, principal) then Failure("human_principal_required")
    else
      var current := Current(d, s, blind);
      match current
      case Some(v) =>
        var row := d.rows[Key(s, v)];
        if row.principal == principal then Success(d)
        else if now <= row.validFrom then Failure("validity")
        else if Key(s, v + 1) in d.rows then Failure("identity_assignment_conflict")
        else
          var closed := d.rows[Key(s, v) := row.(validTo := Some(now))];
          Success(d.(rows := closed[Key(s, v + 1) := OpenRow(principal, now)], active := d.active[s := v + 1]))
      case None =>
        if Key(s, 1) in d.rows || s in d.active then Failure("identity_assignment_conflict")
        else Success(d.(rows := d.rows[Key(s, 1) := OpenRow(principal, now)], active := d.active[s := 1]))
  }

  /** resolve_feishu_principal: the one open mapping to a human principal with a user. */
  function Resolve(d: Directory, s: Subject): Result<(nat, nat, Key), string>
    requires Indexed(d)
  {
    if s !in d.active then Failure("missing_or_ambiguous_feishu_identity")
    else
      var key := Key(s, d.active[s]);
      var principal := d.rows[key].principal;
      if !IsHuman(d, principal) || d.principals[principal].user.None? then
        Failure("missing_or_ambiguous_feishu_identity")
      else Success((d.principals[principal].user.value, principal, key))
  }

  datatype Step =
    | Provisioning(id: nat, kind: PrincipalType, key: string, user: Option<nat>)
    | Assigning(subject: Subject, principal: nat, now: int, blind: bool)

  function Apply(d: Directory, step: Step): Result<Directory, string>
    requires Indexed(d)
  {
    match step
    case Provisioning(id, kind, key, user) => Provision(d, id, kind, key, user)
    case Assigning(s, principal, now, blind) => Assign(d, s, principal, now, blind)
  }

  // ---------------------------------------------------------------- the invariant

  predicate Indexed(d: Directory) {
    forall s <- d.active.Keys :: Key(s, d.active[s]) in d.rows
  }

  /** The last version of a subject: 0 before its first assignment. */
  function Last(d: Directory, s: Subject): int {
    if s in d.active then d.active[s] else 0
  }

  predicate Succeeded(row: Mapping, next: Mapping) {
    row.validTo == Some(next.validFrom) && row.validFrom < next.validFrom && row.principal != next.principal
  }

  /** The rows of one subject: versions run 1..n, each is closed at the instant the next opens, only version n
      is open, neighbours name different principals, and all of them are humans. */
  ghost predicate History(d: Directory, s: Subject) {
    var n := Last(d, s);
    && n >= 0
    && (s in d.active ==> n >= 1)
    && (forall v :: Key(s, v) in d.rows <==> 1 <= v <= n)
    && (forall v | 1 <= v < n :: Succeeded(d.rows[Key(s, v)], d.rows[Key(s, v + 1)]))
    && (n >= 1 ==> d.rows[Key(s, n)].validTo.None?)
    && (forall v | 1 <= v <= n :: IsHuman(d, d.rows[Key(s, v)].principal))
  }

  predicate People(d: Directory) {
    && (forall id <- d.principals.Keys :: d.principals[id].kind.Human? <==> d.principals[id].user.Some?)
    && (forall a, b | a in d.principals && b in d.principals && a != b ::
          && d.principals[a].key != d.principals[b].key
          && (d.principals[a].user.Some? ==> d.principals[a].user != d.principals[b].user))
  }

  ghost predicate Sound(d: Directory) {
    Indexed(d) && People(d) && forall s :: History(d, s)
  }

  lemma SoundEmpty()
    ensures Sound(EMPTY)
  {
  }

  lemma ProvisionKeeps(d: Directory, id: nat, kind: PrincipalType, key: string, user: Option<nat>)
    requires Sound(d) && Provision(d, id, kind, key, user).Success?
    ensures Sound(Provision(d, id, kind, key, user).value)
  {
    var e := Provision(d, id, kind, key, user).value;
    forall s ensures History(e, s) {
      assert History(d, s);
    }
    forall a | a in d.principals
      ensures d.principals[a].key != key && (user.Some? ==> d.principals[a].user != user)
    {
      assert d.principals[a] in d.principals.Values;
    }
  }

  lemma AssignKeepsOwn(d: Directory, s: Subject, principal: nat, now: int, blind: bool)
    requires Indexed(d) && History(d, s) && Assign(d, s, principal, now, blind).Success?
    ensures History(Assign(d, s, principal, now, blind).value, s)
  {
    var e := Assign(d, s, principal, now, blind).value;
    if e != d && Last(d, s) > 0 {
      var n := Last(d, s);
      forall v | 1 <= v <= n ensures Succeeded(e.rows[Key(s, v)], e.rows[Key(s, v + 1)]) {
        if v < n {
          assert Succeeded(d.rows[Key(s, v)], d.rows[Key(s, v + 1)]);
        }
      }
    }
  }

  lemma AssignKeepsOther(d: Directory, s: Subject, principal: nat, now: int, blind: bool, other: Subject)
    requires Indexed(d) && History(d, other) && other != s && Assign(d, s, principal, now, blind).Success?
    ensures History(Assign(d, s, principal, now, blind).value, other)
  {
    var e := Assign(d, s, principal, now, blind).value;
    assert forall v :: Key(other, v) in d.rows <==> Key(other, v) in e.rows;
    assert forall v | Key(other, v) in d.rows :: d.rows[Key(other, v)] == e.rows[Key(other, v)];
    assert Last(d, other) == Last(e, other);
  }

  lemma AssignKeeps(d: Directory, s: Subject, principal: nat, now: int, blind: bool)
    requires Sound(d) && Assign(d, s, principal, now, blind).Success?
    ensures Sound(Assign(d, s, principal, now, blind).value)
  {
    var e := Assign(d, s, principal, now, blind).value;
    forall other ensures History(e, other) {
      assert History(d, other);
      if other == s {
        AssignKeepsOwn(d, s, principal, now, blind);
      } else {
        AssignKeepsOther(d, s, principal, now, blind, other);
      }
    }
  }

  /** One transaction: it commits its directory, or rolls back and leaves everything as it was. */
  predicate Leads(before: Directory, after: Directory, step: Step) {
    Indexed(before) && after == Apply(before, step).GetOr(before)
  }

  lemma LeadsKeeps(before: Directory, after: Directory, step: Step)
    requires Leads(before, after, step) && Sound(before)
    ensures Sound(after)
  {
    if Apply(before, step).Success? {
      match step
      case Provisioning(id, kind, key, user) => ProvisionKeeps(before, id, kind, key, user);
      case Assigning(s, principal, now, blind) => AssignKeeps(before, s, principal, now, blind);
    }
  }

  /** A run of transactions from the empty table, with every directory it passes through. */
  ghost predicate Trace(trace: seq<Directory>, steps: seq<Step>) {
    && |trace| == |steps| + 1 && trace[0] == EMPTY
    && forall k | 0 <= k < |steps| :: Leads(trace[k], trace[k + 1], steps[k])
  }

  /** Every directory that any run of transactions passes through is sound, whatever clock readings and blind
      waiters occur in it. */
  lemma {:induction false} TraceSound(trace: seq<Directory>, steps: seq<Step>, k: nat)
    requires Trace(trace, steps) && k < |trace|
    ensures Sound(trace[k])
  {
    if k == 0 {
      SoundEmpty();
    } else {
      TraceSound(trace, steps, k - 1);
      LeadsKeeps(trace[k - 1], trace[k], steps[k - 1]);
    }
  }

  // ---------------------------------------------------------------- what it means

  predicate Covers(d: Directory, s: Subject, v: int, instant: int)
    requires Key(s, v) in d.rows
  {
    var row := d.rows[Key(s, v)];
    row.validFrom <= instant && (row.validTo.None? || instant < row.validTo.value)
  }

  /** The version in force at an instant, looked for from the newest of the first n down; 0 if none. */
  function InForce(d: Directory, s: Subject, n: nat, instant: int): int
    requires forall v | 1 <= v <= n :: Key(s, v) in d.rows
  {
    if n == 0 then 0
    else if d.rows[Key(s, n)].validFrom <= instant then n
    else InForce(d, s, n - 1, instant)
  }

  lemma {:induction false} Later(d: Directory, s: Subject, v: int, w: int)
    requires History(d, s) && 1 <= v < w <= Last(d, s)
    ensures d.rows[Key(s, v)].validFrom < d.rows[Key(s, w)].validFrom
    ensures d.rows[Key(s, v)].validTo.Some? && d.rows[Key(s, v)].validTo.value <= d.rows[Key(s, w)].validFrom
    decreases w - v
  {
    assert Succeeded(d.rows[Key(s, v)], d.rows[Key(s, v + 1)]);
    if v + 1 < w {
      Later(d, s, v + 1, w);
    }
  }

  lemma {:induction false} InForceCovers(d: Directory, s: Subject, n: nat, instant: int)
    requires History(d, s) && 1 <= n <= Last(d, s) && d.rows[Key(s, 1)].validFrom <= instant
    requires n == Last(d, s) || instant < d.rows[Key(s, n + 1)].validFrom
    ensures var v := InForce(d, s, n, instant); 1 <= v <= n && Covers(d, s, v, instant)
  {
    if d.rows[Key(s, n)].validFrom > instant {
      InForceCovers(d, s, n - 1, instant);
    }
  }

  /** From its first assignment on, exactly one mapping of a subject covers any instant. */
  lemma OneMappingCovers(d: Directory, s: Subject, instant: int)
    requires Sound(d) && Key(s, 1) in d.rows && d.rows[Key(s, 1)].validFrom <= instant
    ensures exists v :: Key(s, v) in d.rows && Covers(d, s, v, instant)
    ensures forall v, w | Key(s, v) in d.rows && Key(s, w) in d.rows ::
      Covers(d, s, v, instant) && Covers(d, s, w, instant) ==> v == w
  {
    assert History(d, s);
    InForceCovers(d, s, Last(d, s), instant);
    forall v, w | Key(s, v) in d.rows && Key(s, w) in d.rows && Covers(d, s, v, instant) && Covers(d, s, w, instant)
      ensures v == w
    {
      if v < w {
        Later(d, s, v, w);
      } else if w < v {
        Later(d, s, w, v);
      }
    }
  }

  /** The map the history stands for. */
  function Assigned(d: Directory): map<Subject, nat>
    requires Indexed(d)
  {
    map s | s in d.active :: d.rows[Key(s, d.active[s])].principal
  }

  /** A committed assignment updates that map at its subject; no other transaction changes it. */
  lemma AssignRefinesUpdate(d: Directory, step: Step)
    requires Sound(d) && Apply(d, step).Success?
    ensures Indexed(Apply(d, step).value)
    ensures Assigned(Apply(d, step).value)
      == if step.Assigning? then Assigned(d)[step.subject := step.principal] else Assigned(d)
  {
    LeadsKeeps(d, Apply(d, step).value, step);
    if step.Assigning? {
      assert History(d, step.subject);
    }
  }

  /** The principal that the run last assigned to a subject, counting committed assignments only. */
  ghost function LastAssigned(trace: seq<Directory>, steps: seq<Step>, s: Subject): Option<nat>
    requires Trace(trace, steps)
    decreases |steps|
  {
    if steps == [] then None
    else
      var k := |steps| - 1;
      assert Leads(trace[k], trace[k + 1], steps[k]);
      if steps[k].Assigning? && steps[k].subject == s && Apply(trace[k], steps[k]).Success? then
        Some(steps[k].principal)
      else LastAssigned(trace[..k + 1], steps[..k], s)
  }

  /** The reader agrees with the history: after any run, resolve_feishu_principal succeeds exactly for the
      subjects that were ever assigned, and returns the principal last assigned, who is a human with a user. */
  lemma ResolveReturnsLastAssigned(trace: seq<Directory>, steps: seq<Step>, s: Subject)
    requires Trace(trace, steps)
    ensures var d := trace[|steps|];
      Indexed(d) && match LastAssigned(trace, steps, s)
      case Some(principal) =>
        && Resolve(d, s).Success? && Resolve(d, s).value.1 == principal
        && IsHuman(d, principal) && d.principals[principal].user == Some(Resolve(d, s).value.0)
      case None => Resolve(d, s).Failure?
  {
    var k := |steps|;
    TraceSound(trace, steps, k);
    AssignedIsLast(trace, steps, s);
    assert History(trace[k], s);
  }

  lemma {:induction false} AssignedIsLast(trace: seq<Directory>, steps: seq<Step>, s: Subject)
    requires Trace(trace, steps)
    ensures Indexed(trace[|steps|])
    ensures var last := Assigned(trace[|steps|]);
      LastAssigned(trace, steps, s) == if s in last then Some(last[s]) else None
    decreases |steps|
  {
    if steps != [] {
      var k := |steps| - 1;
      AssignedIsLast(trace[..k + 1], steps[..k], s);
      TraceSound(trace, steps, k);
      assert Leads(trace[k], trace[k + 1], steps[k]);
      if Apply(trace[k], steps[k]).Success? {
        AssignRefinesUpdate(trace[k], steps[k]);
      }
    }
  }

  /** History is never rewritten: an assignment made at `now` leaves the version in force at every earlier instant
      as it was, and puts the new principal in force from `now` on. */
  lemma AssignKeepsThePast(d: Directory, s: Subject, principal: nat, now: int, blind: bool, instant: int)
    requires Sound(d) && Assign(d, s, principal, now, blind).Success?
    requires Assign(d, s, principal, now, blind).value != d
    ensures var e := Assign(d, s, principal, now, blind).value;
      && History(e, s) && History(d, s)
      && (instant < now ==> InForce(e, s, Last(e, s), instant) == InForce(d, s, Last(d, s), instant))
      && (instant >= now ==> e.rows[Key(s, InForce(e, s, Last(e, s), instant))].principal == principal)
  {
    var e := Assign(d, s, principal, now, blind).value;
    assert History(d, s);
    AssignKeeps(d, s, principal, now, blind);
    assert Last(e, s) == Last(d, s) + 1;
    InForceFrame(d, e, s, Last(d, s), instant);
  }

  lemma {:induction false} InForceFrame(d: Directory, e: Directory, s: Subject, n: nat, instant: int)
    requires forall v | 1 <= v <= n ::
      Key(s, v) in d.rows && Key(s, v) in e.rows && d.rows[Key(s, v)].validFrom == e.rows[Key(s, v)].validFrom
    ensures InForce(d, s, n, instant) == InForce(e, s, n, instant)
  {
    if n > 0 {
      InForceFrame(d, e, s, n - 1, instant);
    }
  }

  /** Only a blind waiter that finds nothing and the two stale cases are refused: an assignment of a human commits
      exactly when the subject is new, or already maps to that principal, or its open mapping began before the
      clock reading; a waiter made blind by a competitor is always refused. */
  lemma AssignCommitsExactly(d: Directory, s: Subject, principal: nat, now: int, blind: bool)
    requires Sound(d) && IsHuman(d, principal)
    ensures Assign(d, s, principal, now, blind).Success? <==>
      || s !in d.active
      || (!blind && (d.rows[Key(s, d.active[s])].principal == principal || d.rows[Key(s, d.active[s])].validFrom < now))
  {
    assert History(d, s);
  }

  /** And what a committed assignment leaves in the table: the first version of a new subject, nothing new for the
      principal that the subject already maps to, and otherwise the open version closed and the next one opened at the
      instant that was read. */
  lemma AssignsExactly(d: Directory, s: Subject, principal: nat, now: int, blind: bool)
    requires Sound(d)
    ensures var result := Assign(d, s, principal, now, blind);
      && (result.Success? ==> principal in d.principals && d.principals[principal].kind == Human)
      && (result.Success? && s !in d.active ==>
            result.value == Directory(
              d.principals, d.rows[Key(s, 1) := Mapping(principal, now, None)], d.active[s := 1]))
      && (result.Success? && s in d.active ==>
            Key(s, d.active[s]) in d.rows &&
            var v := d.active[s];
            var row := d.rows[Key(s, v)];
            result.value ==
              if row.principal == principal then d
              else Directory(
                d.principals,
                d.rows[Key(s, v) := Mapping(row.principal, row.validFrom, Some(now))]
                      [Key(s, v + 1) := Mapping(principal, now, None)],
                d.active[s := v + 1]))
  {
    assert History(d, s);
  }

  /** A principal is stored exactly if it is a human with a user or no human and no user, its id and key are new, and so
      is its user. */
  lemma ProvisionsExactly(d: Directory, id: nat, kind: PrincipalType, key: string, user: Option<nat>)
    ensures Provision(d, id, kind, key, user).Success? <==>
      && (kind == Human <==> user != None) && id !in d.principals
      && forall other <- d.principals.Keys ::
           d.principals[other].key != key && (user == None || d.principals[other].user != user)
    ensures Provision(d, id, kind, key, user).Success? ==>
      Provision(d, id, kind, key, user).value
        == Directory(d.principals[id := Principal(kind, key, user)], d.rows, d.active)
  {
    assert forall other <- d.principals.Keys :: d.principals[other] in d.principals.Values;
  }

  // ---------------------------------------------------------------- the service, in place

  class IdentityAuthority {
    var principals: map<nat, Principal>
    var rows: map<Key, Mapping>
    var active: map<Subject, int>

    function View(): Directory
      reads this
    {
      Directory(principals, rows, active)
    }

    constructor ()
      ensures View() == EMPTY && Sound(View())
    {
      principals, rows, active := map[], map[], map[];
      new;
      SoundEmpty();
    }

    method ProvisionPrincipal(id: nat, kind: PrincipalType, key: string, user: Option<nat>)
      returns (r: Result<nat, string>)
      requires Sound(View())
      modifies this`principals
      ensures Sound(View())
      ensures var spec := Provision(old(View()), id, kind, key, user);
        View() == spec.GetOr(old(View())) && (r.Success? <==> spec.Success?)
    {
      if kind.Human? != user.Some? {
        return Failure("invalid_principal_user_binding");
      }
      if id in principals || exists p <- principals.Values :: p.key == key || (user.Some? && p.user == user) {
        return Failure("unique_violation");
      }
      ProvisionKeeps(View(), id, kind, key, user);
      principals := principals[id := Principal(kind, key, user)];
      r := Success(id);
    }

    /** The open row is closed in place, then the new version is inserted; a violated constraint rolls both back.
        `blind` is true when the row lock was granted on a row that its competitor had closed. */
    method AssignFeishuIdentity(s: Subject, principal: nat, now: int, blind: bool) returns (r: Result<Key, string>)
      requires Sound(View())
      modifies this`rows, this`active
      ensures Sound(View())
      ensures var spec := Assign(old(View()), s, principal, now, blind);
        View() == spec.GetOr(old(View())) && (r.Success? <==> spec.Success?)
      ensures r.Success? ==>
        s in active && r.value == Key(s, active[s]) && r.value in rows && rows[r.value].principal == principal
    {
      ghost var before := View();
      if Assign(before, s, principal, now, blind).Success? {
        AssignKeeps(before, s, principal, now, blind);
      }
      assert History(before, s);
      if principal !in principals || !principals[principal].kind.Human? {
        return Failure("human_principal_required");
      }
      var savedRows, savedActive := rows, active;
      var version := 1;
      if !blind && s in active {
        var current := Key(s, active[s]);
        if rows[current].principal == principal {
          return Success(current);
        }
        if now <= rows[current].validFrom {
          return Failure("validity");
        }
        rows := rows[current := rows[current].(validTo := Some(now))];
        active := active - {s};
        version := current.version + 1;
      }
      if Key(s, version) in rows || s in active {
        rows, active := savedRows, savedActive;
        return Failure("identity_assignment_conflict");
      }
      rows := rows[Key(s, version) := Mapping(principal, now, None)];
      active := active[s := version];
      assert version > 1 ==> active == before.active[s := version];
      r := Success(Key(s, version));
    }

    method ResolveFeishuPrincipal(s: Subject) returns (r: Result<(nat, nat, Key), string>)
      requires Sound(View())
      ensures r == Resolve(View(), s)
      ensures r.Success? <==> s in active
    {
      assert History(View(), s);
      r := Resolve(View(), s);
    }
  }
}
