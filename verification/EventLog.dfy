/** Appending a state event from a stale read. A transaction reads the latest event, builds the next one and
    inserts it later; the unique key (deployment, sequence) is all that guards the insertion. */
module EventLog {
  import opened Wrappers
  import opened DeployStates

  datatype Key = Key(deployment: nat, sequence: int)

  datatype Event = Event(from: Option<DeployState>, to: DeployState)

  /** A transaction that has read and not yet committed. */
  datatype Pending = Pending(key: Key, event: Event)

  datatype Log = Log(table: map<Key, Event>, pending: map<nat, Pending>)

  const EMPTY := Log(map[], map[])

  datatype Step =
    | Read(txn: nat, deployment: nat, latest: int, to: DeployState)
    | Commit(txn: nat)
    | Rollback(txn: nat)

  /** The read of _latest_state_event: the row with the highest sequence committed so far, 0 for none. */
  ghost predicate IsLatest(table: map<Key, Event>, deployment: nat, n: int) {
    && (n == 0 || Key(deployment, n) in table)
    && forall k | Key(deployment, k) in table :: k <= n
  }

  function Reached(table: map<Key, Event>, deployment: nat, n: int): Option<DeployState> {
    if Key(deployment, n) in table then Some(table[Key(deployment, n)].to) else None
  }

  /** One step of any transaction: a read that finds the transition legal, an insertion that the unique key
      allows or turns into a rollback, or a rollback for any other reason. */
  ghost predicate Next(a: Log, b: Log, step: Step) {
    match step
    case Read(txn, deployment, latest, to) =>
      var from := Reached(a.table, deployment, latest);
      && txn !in a.pending && IsLatest(a.table, deployment, latest) && Legal(from, to)
      && b == a.(pending := a.pending[txn := Pending(Key(deployment, latest + 1), Event(from, to))])
    case Commit(txn) =>
      && txn in a.pending
      && var p := a.pending[txn];
         b == Log(if p.key in a.table then a.table else a.table[p.key := p.event], a.pending - {txn})
    case Rollback(txn) => txn in a.pending && b == a.(pending := a.pending - {txn})
  }

  ghost predicate Run(trace: seq<Log>, steps: seq<Step>) {
    && |trace| == |steps| + 1 && trace[0] == EMPTY
    && forall k | 0 <= k < |steps| :: Next(trace[k], trace[k + 1], steps[k])
  }

  // ---------------------------------------------------------------- the invariant

  /** An event fits after the first n - 1 events of its deployment. */
  predicate Follows(table: map<Key, Event>, key: Key, event: Event) {
    && key.sequence >= 1
    && (key.sequence == 1 ==> event.from.None?)
    && (key.sequence > 1 ==>
          var before := Key(key.deployment, key.sequence - 1);
          before in table && event.from == Some(table[before].to))
    && Legal(event.from, event.to)
  }

  predicate Ordered(table: map<Key, Event>) {
    forall key {:trigger Follows(table, key, table[key])} | key in table :: Follows(table, key, table[key])
  }

  ghost predicate Sound(log: Log) {
    && Ordered(log.table)
    && (forall txn <- log.pending.Keys :: Follows(log.table, log.pending[txn].key, log.pending[txn].event))
  }

  lemma FollowsGrows(table: map<Key, Event>, key: Key, event: Event, next: Key, added: Event)
    requires next !in table && Follows(table, key, event)
    ensures Follows(table[next := added], key, event)
  {
  }

  lemma NextKeeps(a: Log, b: Log, step: Step)
    requires Sound(a) && Next(a, b, step)
    ensures Sound(b)
  {
    match step
    case Read(txn, deployment, latest, to) =>
      assert latest != 0 ==> Follows(a.table, Key(deployment, latest), a.table[Key(deployment, latest)]);
      assert Key(deployment, 0) in a.table ==> Follows(a.table, Key(deployment, 0), a.table[Key(deployment, 0)]);
    case Commit(txn) =>
      var p := a.pending[txn];
      if p.key !in a.table {
        forall key | key in b.table ensures Follows(b.table, key, b.table[key]) {
          if key != p.key {
            assert Follows(a.table, key, a.table[key]);
          }
          FollowsGrows(a.table, key, b.table[key], p.key, p.event);
        }
        forall t <- b.pending.Keys ensures Follows(b.table, b.pending[t].key, b.pending[t].event) {
          FollowsGrows(a.table, b.pending[t].key, b.pending[t].event, p.key, p.event);
        }
      }
    case Rollback(txn) => {}
  }

  lemma {:induction false} RunSound(trace: seq<Log>, steps: seq<Step>, k: nat)
    requires Run(trace, steps) && k < |trace|
    ensures Sound(trace[k])
  {
    if k > 0 {
      RunSound(trace, steps, k - 1);
      NextKeeps(trace[k - 1], trace[k], steps[k - 1]);
    }
  }

  // ---------------------------------------------------------------- the committed log of one deployment

  /** The committed events of a deployment are numbered 1..|log| and lead through `log`. */
  ghost predicate Holds(table: map<Key, Event>, deployment: nat, log: seq<DeployState>) {
    && (forall k :: Key(deployment, k) in table <==> 1 <= k <= |log|)
    && (forall k | 1 <= k <= |log| ::
          table[Key(deployment, k)] == Event(At(log[..k - 1]), log[k - 1]))
  }

  lemma {:induction false} Downwards(table: map<Key, Event>, deployment: nat, high: int, low: int)
    requires Ordered(table)
    requires Key(deployment, high) in table && 1 <= low <= high
    ensures Key(deployment, low) in table
    decreases high - low
  {
    if low < high {
      assert Follows(table, Key(deployment, high), table[Key(deployment, high)]);
      Downwards(table, deployment, high - 1, low);
    }
  }

  lemma {:induction false} RankIsSequence(table: map<Key, Event>, deployment: nat, n: int)
    requires Ordered(table)
    requires Key(deployment, n) in table
    ensures 1 <= n <= 7 && Rank(Some(table[Key(deployment, n)].to)) == n
    decreases n
  {
    var key := Key(deployment, n);
    assert Follows(table, key, table[key]);
    LegalClimbs(table[key].from, table[key].to);
    if n > 1 {
      RankIsSequence(table, deployment, n - 1);
    }
  }

  /** The first n states, when the first n events are there. */
  function Prefix(table: map<Key, Event>, deployment: nat, n: nat): (log: seq<DeployState>)
    requires forall k | 1 <= k <= n :: Key(deployment, k) in table
    ensures |log| == n && forall k | 1 <= k <= n :: log[k - 1] == table[Key(deployment, k)].to
  {
    if n == 0 then [] else Prefix(table, deployment, n - 1) + [table[Key(deployment, n)].to]
  }

  lemma PrefixAt(table: map<Key, Event>, deployment: nat, n: nat, k: nat)
    requires Ordered(table)
    requires forall j | 1 <= j <= n :: Key(deployment, j) in table
    requires 1 <= k <= n
    ensures var log := Prefix(table, deployment, n);
      table[Key(deployment, k)] == Event(At(log[..k - 1]), log[k - 1]) && Legal(At(log[..k - 1]), log[k - 1])
  {
    var log := Prefix(table, deployment, n);
    assert Follows(table, Key(deployment, k), table[Key(deployment, k)]);
    if k > 1 {
      assert At(log[..k - 1]) == Some(log[k - 2]);
      assert log[(k - 1) - 1] == table[Key(deployment, k - 1)].to;
    }
  }

  lemma PrefixHolds(table: map<Key, Event>, deployment: nat, n: nat)
    requires Ordered(table)
    requires forall k | 1 <= k <= n :: Key(deployment, k) in table
    ensures var log := Prefix(table, deployment, n);
      && Chain(log)
      && forall k | 1 <= k <= n :: table[Key(deployment, k)] == Event(At(log[..k - 1]), log[k - 1])
  {
    var log := Prefix(table, deployment, n);
    forall k | 1 <= k <= n ensures table[Key(deployment, k)] == Event(At(log[..k - 1]), log[k - 1]) {
      PrefixAt(table, deployment, n, k);
    }
    forall k | 0 <= k < |log| ensures Legal(At(log[..k]), log[k]) {
      PrefixAt(table, deployment, n, k + 1);
    }
  }

  lemma {:induction false} FindLatest(table: map<Key, Event>, deployment: nat, n: nat) returns (last: nat)
    requires Ordered(table)
    requires n <= 7 && forall k | Key(deployment, k) in table :: k <= n
    ensures last <= n && IsLatest(table, deployment, last)
  {
    if n == 0 || Key(deployment, n) in table {
      last := n;
    } else {
      last := FindLatest(table, deployment, n - 1);
    }
  }

  /** Whatever the interleaving, the committed events of every deployment are numbered 1..n with n at most seven,
      each starts where its predecessor ended, every step is legal, and nothing follows a terminal state. */
  lemma CommittedLogIsChain(trace: seq<Log>, steps: seq<Step>, deployment: nat)
    requires Run(trace, steps)
    ensures var table := trace[|steps|].table;
      exists log :: Holds(table, deployment, log) && Chain(log) && |log| <= 7
        && forall k | 0 <= k < |log| - 1 :: !Terminal(log[k])
  {
    RunSound(trace, steps, |steps|);
    var table := trace[|steps|].table;
    var log := CommittedLog(table, deployment);
  }

  lemma CommittedLog(table: map<Key, Event>, deployment: nat) returns (log: seq<DeployState>)
    requires Ordered(table)
    ensures Holds(table, deployment, log) && Chain(log) && |log| <= 7
    ensures forall k | 0 <= k < |log| - 1 :: !Terminal(log[k])
  {
    forall k | Key(deployment, k) in table ensures k <= 7 {
      RankIsSequence(table, deployment, k);
    }
    var n := FindLatest(table, deployment, 7);
    forall k: int ensures Key(deployment, k) in table <==> 1 <= k <= n {
      if Key(deployment, k) in table {
        RankIsSequence(table, deployment, k);
      }
      if 1 <= k <= n {
        Downwards(table, deployment, n, k);
      }
    }
    assert forall k: int :: Key(deployment, k) in table <==> 1 <= k <= n;
    log := Prefix(table, deployment, n);
    PrefixHolds(table, deployment, n);
    forall k | 0 <= k < |log| - 1 ensures !Terminal(log[k]) {
      TerminalIsLast(log, k);
    }
  }

  /** A committed append from a read however stale is the append of one legal state to the log as it is at the
      commit: a transaction whose read was overtaken cannot commit at all. */
  lemma StaleCommitAppends(a: Log, b: Log, txn: nat, log: seq<DeployState>)
    requires Sound(a) && Next(a, b, Commit(txn)) && Holds(a.table, a.pending[txn].key.deployment, log)
    ensures var p := a.pending[txn];
      && (b.table != a.table <==> p.key.sequence == |log| + 1)
      && (b.table != a.table ==>
            Legal(At(log), p.event.to) && Holds(b.table, p.key.deployment, log + [p.event.to]))
    ensures forall other, held | other != a.pending[txn].key.deployment && Holds(a.table, other, held) ::
      Holds(b.table, other, held)
  {
    var p := a.pending[txn];
    var deployment := p.key.deployment;
    assert Follows(a.table, p.key, p.event);
    assert p.key.sequence <= |log| + 1 by {
      if p.key.sequence > 1 {
        assert Key(deployment, p.key.sequence - 1) in a.table;
      }
    }
    assert p.key in a.table <==> p.key.sequence <= |log| by {
      assert p.key == Key(deployment, p.key.sequence);
    }
    if p.key !in a.table {
      var longer := log + [p.event.to];
      assert b.table[p.key] == p.event && p.key in b.table;
      assert p.event.from == At(log) by {
        if log != [] {
          assert a.table[Key(deployment, |log|)].to == log[|log| - 1];
        }
      }
      assert longer[..|log|] == log;
      forall k | 1 <= k <= |log| ensures b.table[Key(deployment, k)] == Event(At(longer[..k - 1]), longer[k - 1]) {
        assert longer[..k - 1] == log[..k - 1];
      }
    }
  }
}
