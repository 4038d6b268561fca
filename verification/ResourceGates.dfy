/** The two implementations of the production resource gate: evaluate_resource_window on caller samples in
    milliseconds, and the trusted collector's own window on monotonic seconds. */
module ResourceGates {
  import opened Wrappers

  const MEM_MEDIAN_MIN := 1_073_741_824
  const MEM_SAMPLE_MIN := 1_006_632_960
  const SWAP_SAMPLE_MIN := 1_342_177_280
  const DISK_SAMPLE_MIN := 5_368_709_120

  datatype Metrics = Metrics(mem: int, swap: int, root: int, docker: int)

  datatype ResourceSample = ResourceSample(elapsedMs: int, metrics: Metrics)

  datatype Identity = Identity(
    checkId: nat, deploymentId: nat, environment: string, hostCheckpoint: string, checkpointNonce: nat)

  datatype TrustedSample = TrustedSample(identity: Identity, monotonic: real, metrics: Metrics)

  // ---------------------------------------------------------------- sorting, medians and minima

  predicate Ascending(s: seq<int>) {
    forall i, j :: 0 <= i < j < |s| ==> s[i] <= s[j]
  }

  function Insert(x: int, s: seq<int>): (r: seq<int>)
    ensures |r| == |s| + 1
    ensures r[0] == x || (s != [] && r[0] == s[0])
  {
    if s == [] || x <= s[0] then [x] + s else [s[0]] + Insert(x, s[1..])
  }

  function Sort(s: seq<int>): (r: seq<int>)
    ensures |r| == |s|
  {
    if s == [] then [] else Insert(s[0], Sort(s[1..]))
  }

  lemma {:induction false} InsertAscends(x: int, s: seq<int>)
    requires Ascending(s)
    ensures Ascending(Insert(x, s))
  {
    if s != [] && x > s[0] {
      InsertAscends(x, s[1..]);
    }
  }

  lemma {:induction false} InsertContents(x: int, s: seq<int>)
    ensures multiset(Insert(x, s)) == multiset(s) + multiset{x}
  {
    if s != [] && x > s[0] {
      InsertContents(x, s[1..]);
      assert s == [s[0]] + s[1..];
    }
  }

  lemma {:induction false} SortSorts(s: seq<int>)
    ensures Ascending(Sort(s)) && multiset(Sort(s)) == multiset(s)
  {
    if s != [] {
      SortSorts(s[1..]);
      InsertAscends(s[0], Sort(s[1..]));
      InsertContents(s[0], Sort(s[1..]));
      assert s == [s[0]] + s[1..];
    }
  }

  function AtLeast(s: seq<int>, threshold: int): (n: nat)
    ensures n <= |s|
  {
    if s == [] then 0 else (if s[0] >= threshold then 1 else 0) + AtLeast(s[1..], threshold)
  }

  lemma {:induction false} AtLeastConcat(a: seq<int>, b: seq<int>, threshold: int)
    ensures AtLeast(a + b, threshold) == AtLeast(a, threshold) + AtLeast(b, threshold)
  {
    if a == [] {
      assert a + b == b;
    } else {
      assert (a + b)[1..] == a[1..] + b;
      AtLeastConcat(a[1..], b, threshold);
    }
  }

  lemma {:induction false} AtLeastByContents(a: seq<int>, b: seq<int>, threshold: int)
    requires multiset(a) == multiset(b)
    ensures AtLeast(a, threshold) == AtLeast(b, threshold)
  {
    assert |multiset(a)| == |a| && |multiset(b)| == |b|;
    if a != [] {
      assert a[0] in multiset(b);
      var i :| 0 <= i < |b| && b[i] == a[0];
      var rest := b[..i] + b[i + 1..];
      assert a == [a[0]] + a[1..];
      assert b == b[..i] + ([b[i]] + b[i + 1..]);
      assert multiset(rest) == multiset(b) - multiset{b[i]};
      AtLeastByContents(a[1..], rest, threshold);
      AtLeastConcat(b[..i], [b[i]] + b[i + 1..], threshold);
      AtLeastConcat([b[i]], b[i + 1..], threshold);
      AtLeastConcat(b[..i], b[i + 1..], threshold);
    }
  }

  lemma {:induction false} AtLeastSorted(s: seq<int>, k: nat, threshold: int)
    requires Ascending(s) && k < |s|
    ensures s[k] >= threshold <==> AtLeast(s, threshold) >= |s| - k
  {
    if s[0] >= threshold {
      AllAtLeast(s, threshold);
    } else if k > 0 {
      AtLeastSorted(s[1..], k - 1, threshold);
    }
  }

  lemma {:induction false} AllAtLeast(s: seq<int>, threshold: int)
    ensures AtLeast(s, threshold) == |s| <==> forall i :: 0 <= i < |s| ==> s[i] >= threshold
  {
    if s != [] {
      AllAtLeast(s[1..], threshold);
      assert forall i :: 0 < i < |s| ==> s[i] == s[1..][i - 1];
    }
  }

  /** sorted(samples)[3], which is also statistics.median of seven values. */
  function Median(s: seq<int>): int
    requires |s| == 7
  {
    Sort(s)[3]
  }

  function Minimum(s: seq<int>): int
    requires s != []
  {
    if |s| == 1 then s[0] else var m := Minimum(s[1..]); if s[0] < m then s[0] else m
  }

  /** The median reaches a threshold exactly when at least four of the seven samples do. */
  lemma MedianIsMajority(s: seq<int>, threshold: int)
    requires |s| == 7
    ensures Median(s) >= threshold <==> AtLeast(s, threshold) >= 4
  {
    SortSorts(s);
    AtLeastSorted(Sort(s), 3, threshold);
    AtLeastByContents(s, Sort(s), threshold);
  }

  /** The order in which the samples were taken does not matter to it. */
  lemma MedianIgnoresOrder(a: seq<int>, b: seq<int>)
    requires |a| == |b| == 7 && multiset(a) == multiset(b)
    ensures Median(a) == Median(b)
  {
    MedianIsMajority(a, Median(a));
    MedianIsMajority(b, Median(a));
    MedianIsMajority(a, Median(b));
    MedianIsMajority(b, Median(b));
    AtLeastByContents(a, b, Median(a));
    AtLeastByContents(a, b, Median(b));
  }

  /** The first of the sorted values and the running minimum are the same number. */
  lemma {:induction false} MinimumReaches(s: seq<int>, threshold: int)
    requires s != []
    ensures Minimum(s) >= threshold <==> forall i :: 0 <= i < |s| ==> s[i] >= threshold
  {
    if |s| > 1 {
      MinimumReaches(s[1..], threshold);
      assert forall i :: 0 < i < |s| ==> s[i] == s[1..][i - 1];
    }
  }

  lemma SortedFirstReaches(s: seq<int>, threshold: int)
    requires s != []
    ensures Sort(s)[0] >= threshold <==> forall i :: 0 <= i < |s| ==> s[i] >= threshold
  {
    SortSorts(s);
    AtLeastSorted(Sort(s), 0, threshold);
    AtLeastByContents(s, Sort(s), threshold);
    AllAtLeast(s, threshold);
  }

  // ---------------------------------------------------------------- the two gates

  function Column<A, B>(rows: seq<A>, field: A -> B): (column: seq<B>)
    ensures |column| == |rows|
    ensures forall i :: 0 <= i < |column| ==> column[i] == field(rows[i])
  {
    seq(|rows|, i requires 0 <= i < |rows| => field(rows[i]))
  }

  function Mem(): Metrics -> int { (m: Metrics) => m.mem }

  function Swap(): Metrics -> int { (m: Metrics) => m.swap }

  function Root(): Metrics -> int { (m: Metrics) => m.root }

  function Docker(): Metrics -> int { (m: Metrics) => m.docker }

  predicate Malformed(sample: ResourceSample) {
    || sample.elapsedMs < 0 || sample.metrics.mem < 0 || sample.metrics.swap < 0 || sample.metrics.root < 0
    || sample.metrics.docker < 0
  }

  predicate BadInterval(samples: seq<ResourceSample>, i: int)
    requires 0 < i < |samples|
  {
    !(4000 <= samples[i].elapsedMs - samples[i - 1].elapsedMs <= 6000)
  }

  function MetricsOf(samples: seq<ResourceSample>): seq<Metrics> {
    Column(samples, (s: ResourceSample) => s.metrics)
  }

  /** The metric tests of evaluate_resource_window, first failure first. */
  function JudgeMetrics(metrics: seq<Metrics>): string
    requires |metrics| == 7
  {
    var memory := Sort(Column(metrics, Mem()));
    if memory[3] < MEM_MEDIAN_MIN then "median_memory"
    else if memory[0] < MEM_SAMPLE_MIN then "minimum_memory"
    else if exists i :: 0 <= i < 7 && metrics[i].swap < SWAP_SAMPLE_MIN then "swap"
    else if exists i :: 0 <= i < 7 && metrics[i].root < DISK_SAMPLE_MIN then "root_filesystem"
    else if exists i :: 0 <= i < 7 && metrics[i].docker < DISK_SAMPLE_MIN then "docker_filesystem"
    else "passed"
  }

  /** evaluate_resource_window: the reason, "passed" when every test is met. */
  function EvaluateWindow(samples: seq<ResourceSample>): string {
    if |samples| != 7 then "sample_count"
    else if exists i :: 0 <= i < 7 && Malformed(samples[i]) then "malformed_metric"
    else if samples[0].elapsedMs > 1000 then "first_sample_not_immediate"
    else if exists i :: 0 < i < 7 && BadInterval(samples, i) then "sample_interval"
    else if samples[6].elapsedMs < 28000 || samples[6].elapsedMs > 32000 then "sample_span"
    else JudgeMetrics(MetricsOf(samples))
  }

  function TrustedMetrics(samples: seq<TrustedSample>): seq<Metrics> {
    Column(samples, (s: TrustedSample) => s.metrics)
  }

  predicate Steady(samples: seq<TrustedSample>, i: int)
    requires 0 < i < |samples|
  {
    4.0 <= samples[i].monotonic - samples[i - 1].monotonic <= 6.0
  }

  /** The metric tests of _evaluate, by one median and four minima. */
  predicate Ample(metrics: seq<Metrics>)
    requires |metrics| == 7
  {
    && Median(Column(metrics, Mem())) >= MEM_MEDIAN_MIN
    && Minimum(Column(metrics, Mem())) >= MEM_SAMPLE_MIN
    && Minimum(Column(metrics, Swap())) >= SWAP_SAMPLE_MIN
    && Minimum(Column(metrics, Root())) >= DISK_SAMPLE_MIN
    && Minimum(Column(metrics, Docker())) >= DISK_SAMPLE_MIN
  }

  predicate OneIdentity(samples: seq<TrustedSample>)
    requires |samples| == 7
  {
    forall i :: 0 <= i < 7 ==> samples[i].identity == samples[0].identity
  }

  /** TrustedProductionResourceCollector._evaluate: an error, or whether the window passed. */
  function Evaluate(samples: seq<TrustedSample>): Result<bool, string> {
    if |samples| != 7 then Failure("resource_sample_count")
    else if !OneIdentity(samples)
            || (exists i :: 0 < i < 7 && !Steady(samples, i))
            || !(27.0 <= samples[6].monotonic - samples[0].monotonic <= 33.0)
    then Failure("resource_cadence_or_binding")
    else Success(Ample(TrustedMetrics(samples)))
  }

  /** A collected window with the clock readings that bear on its age: when the last sample was captured, when the
      window was evaluated, and when it is asked whether it is still fresh. */
  datatype Window = Window(samples: seq<TrustedSample>, capturedAt: int, evaluatedAt: int, askedAt: int)

  const SAMPLE_MAX_AGE := 15
  const RESULT_MAX_AGE := 30

  /** The collector's evaluation followed by require_fresh. */
  function Gate(w: Window): Result<(), string> {
    match Evaluate(w.samples)
    case Failure(e) => Failure(e)
    case Success(passed) =>
      if !passed || w.askedAt - w.capturedAt > SAMPLE_MAX_AGE || w.askedAt - w.evaluatedAt > RESULT_MAX_AGE then
        Failure("resource_evidence_stale_or_failed")
      else Success(())
  }

  /** The samples that reach a threshold. */
  function Reaching(samples: seq<TrustedSample>, bytes: int): (reaching: set<int>)
    ensures forall i :: i in reaching <==> 0 <= i < |samples| && samples[i].metrics.mem >= bytes
  {
    set i | 0 <= i < |samples| && samples[i].metrics.mem >= bytes
  }

  lemma {:induction false} ReachingCount(samples: seq<TrustedSample>, column: seq<int>, bytes: int)
    requires |column| == |samples| && forall i :: 0 <= i < |samples| ==> column[i] == samples[i].metrics.mem
    ensures |Reaching(samples, bytes)| == AtLeast(column, bytes)
  {
    if samples != [] {
      var n := |samples| - 1;
      ReachingCount(samples[..n], column[..n], bytes);
      assert column == column[..n] + [column[n]];
      AtLeastConcat(column[..n], [column[n]], bytes);
      var before := Reaching(samples[..n], bytes);
      assert Reaching(samples, bytes) == before + if samples[n].metrics.mem >= bytes then {n} else {};
    }
  }

  /** Which windows let a mutation go ahead, in bytes and seconds: seven samples of one identity, four to six seconds
      apart and twenty-seven to thirty-three in all; at least four of them with a gigabyte of memory available and each
      with 960 megabytes, 1280 megabytes of swap and five gigabytes on either disk; the last one at most fifteen and the
      evaluation at most thirty seconds old. */
  lemma GatePassesExactly(w: Window)
    ensures Gate(w).Success? <==>
      && |w.samples| == 7
      && (forall i :: 0 <= i < 7 ==> w.samples[i].identity == w.samples[0].identity)
      && (forall i :: 0 < i < 7 ==> 4.0 <= w.samples[i].monotonic - w.samples[i - 1].monotonic <= 6.0)
      && 27.0 <= w.samples[6].monotonic - w.samples[0].monotonic <= 33.0
      && |Reaching(w.samples, 1_073_741_824)| >= 4
      && (forall i :: 0 <= i < 7 ==>
            && w.samples[i].metrics.mem >= 1_006_632_960 && w.samples[i].metrics.swap >= 1_342_177_280
            && w.samples[i].metrics.root >= 5_368_709_120 && w.samples[i].metrics.docker >= 5_368_709_120)
      && w.askedAt - w.capturedAt <= 15 && w.askedAt - w.evaluatedAt <= 30
  {
    if |w.samples| == 7 {
      AmpleExactly(w.samples);
      EvaluatedExactly(w.samples);
    }
  }

  lemma EvaluatedExactly(samples: seq<TrustedSample>)
    requires |samples| == 7
    ensures Evaluate(samples).Success? <==>
      && (forall i :: 0 <= i < 7 ==> samples[i].identity == samples[0].identity)
      && (forall i :: 0 < i < 7 ==> 4.0 <= samples[i].monotonic - samples[i - 1].monotonic <= 6.0)
      && 27.0 <= samples[6].monotonic - samples[0].monotonic <= 33.0
    ensures Evaluate(samples).Success? ==> Evaluate(samples).value == Ample(TrustedMetrics(samples))
  {
    forall i | 0 < i < 7
      ensures Steady(samples, i) <==> 4.0 <= samples[i].monotonic - samples[i - 1].monotonic <= 6.0
    {
    }
  }

  lemma AmpleExactly(samples: seq<TrustedSample>)
    requires |samples| == 7
    ensures Ample(TrustedMetrics(samples)) <==>
      && |Reaching(samples, 1_073_741_824)| >= 4
      && forall i :: 0 <= i < 7 ==>
           && samples[i].metrics.mem >= 1_006_632_960 && samples[i].metrics.swap >= 1_342_177_280
           && samples[i].metrics.root >= 5_368_709_120 && samples[i].metrics.docker >= 5_368_709_120
  {
    var metrics := TrustedMetrics(samples);
    var memory, swap := Column(metrics, Mem()), Column(metrics, Swap());
    var root, docker := Column(metrics, Root()), Column(metrics, Docker());
    MedianIsMajority(memory, MEM_MEDIAN_MIN);
    ReachingCount(samples, memory, MEM_MEDIAN_MIN);
    MinimumReaches(memory, MEM_SAMPLE_MIN);
    MinimumReaches(swap, SWAP_SAMPLE_MIN);
    MinimumReaches(root, DISK_SAMPLE_MIN);
    MinimumReaches(docker, DISK_SAMPLE_MIN);
    assert forall i :: 0 <= i < 7 ==> memory[i] == samples[i].metrics.mem && swap[i] == samples[i].metrics.swap;
    assert forall i :: 0 <= i < 7 ==> root[i] == samples[i].metrics.root && docker[i] == samples[i].metrics.docker;
  }

  // ---------------------------------------------------------------- agreement

  /** The same window as the trusted collector would have recorded it, its clock having started at `epoch`. */
  function Rescaled(samples: seq<ResourceSample>, identity: Identity, epoch: real): (r: seq<TrustedSample>)
    ensures |r| == |samples|
    ensures forall i :: 0 <= i < |r| ==>
      r[i] == TrustedSample(identity, epoch + samples[i].elapsedMs as real / 1000.0, samples[i].metrics)
  {
    seq(|samples|, i requires 0 <= i < |samples| =>
      TrustedSample(identity, epoch + samples[i].elapsedMs as real / 1000.0, samples[i].metrics))
  }

  /** What the caller gate tests and the trusted gate does not: counts that are not negative and a window
      that starts within its first second and ends between 28 and 32 seconds. */
  predicate WindowPlaced(samples: seq<ResourceSample>)
    requires |samples| == 7
  {
    0 <= samples[0].elapsedMs <= 1000 && 28000 <= samples[6].elapsedMs <= 32000
  }

  lemma MetricsAgree(metrics: seq<Metrics>)
    requires |metrics| == 7
    ensures JudgeMetrics(metrics) == "passed" <==> Ample(metrics)
    ensures Ample(metrics) ==> forall i :: 0 <= i < 7 ==>
      metrics[i].mem >= 0 && metrics[i].swap >= 0 && metrics[i].root >= 0 && metrics[i].docker >= 0
  {
    var memory := Column(metrics, Mem());
    SortedFirstReaches(memory, MEM_SAMPLE_MIN);
    MinimumReaches(memory, MEM_SAMPLE_MIN);
    MinimumReaches(Column(metrics, Swap()), SWAP_SAMPLE_MIN);
    MinimumReaches(Column(metrics, Root()), DISK_SAMPLE_MIN);
    MinimumReaches(Column(metrics, Docker()), DISK_SAMPLE_MIN);
    assert forall i :: 0 <= i < 7 ==> memory[i] == metrics[i].mem;
    assert forall i :: 0 <= i < 7 ==> Column(metrics, Swap())[i] == metrics[i].swap;
    assert forall i :: 0 <= i < 7 ==> Column(metrics, Root())[i] == metrics[i].root;
    assert forall i :: 0 <= i < 7 ==> Column(metrics, Docker())[i] == metrics[i].docker;
  }

  lemma CadenceAgrees(samples: seq<ResourceSample>, identity: Identity, epoch: real)
    requires |samples| == 7
    ensures forall i :: 0 < i < 7 ==> (Steady(Rescaled(samples, identity, epoch), i) <==> !BadInterval(samples, i))
  {
    forall i | 0 < i < 7
      ensures Steady(Rescaled(samples, identity, epoch), i) <==> !BadInterval(samples, i)
    {
      var r := Rescaled(samples, identity, epoch);
      var gap := samples[i].elapsedMs - samples[i - 1].elapsedMs;
      assert r[i].monotonic - r[i - 1].monotonic == gap as real / 1000.0;
    }
  }

  lemma SteadyRises(samples: seq<ResourceSample>, i: nat)
    requires |samples| == 7 && i < 7 && samples[0].elapsedMs >= 0
    requires forall j :: 0 < j < 7 ==> !BadInterval(samples, j)
    ensures samples[i].elapsedMs >= 0
  {
    if i > 0 {
      SteadyRises(samples, i - 1);
      assert !BadInterval(samples, i);
    }
  }

  /** The caller gate passes a window exactly when the trusted gate passes it too and the window also starts
      within the first second and ends between 28 and 32 seconds; so whatever it accepts, the trusted gate
      accepts, its 27 second bound being 28 seconds less the second allowed to the first sample. */
  lemma GatesAgree(samples: seq<ResourceSample>, identity: Identity, epoch: real)
    requires |samples| == 7
    ensures EvaluateWindow(samples) == "passed"
       <==> Evaluate(Rescaled(samples, identity, epoch)) == Success(true) && WindowPlaced(samples)
  {
    var r := Rescaled(samples, identity, epoch);
    CadenceAgrees(samples, identity, epoch);
    assert TrustedMetrics(r) == MetricsOf(samples);
    MetricsAgree(MetricsOf(samples));
    assert r[6].monotonic - r[0].monotonic == (samples[6].elapsedMs - samples[0].elapsedMs) as real / 1000.0;
    assert OneIdentity(r);
    if WindowPlaced(samples) && forall i :: 0 < i < 7 ==> !BadInterval(samples, i) {
      forall i | 0 <= i < 7 ensures samples[i].elapsedMs >= 0 {
        SteadyRises(samples, i);
      }
      if Ample(MetricsOf(samples)) {
        assert forall i :: 0 <= i < 7 ==> samples[i].metrics == MetricsOf(samples)[i];
        assert forall i :: 0 <= i < 7 ==> !Malformed(samples[i]);
      }
    }
    if EvaluateWindow(samples) == "passed" {
      assert !Malformed(samples[0]);
    }
  }

  // ---------------------------------------------------------------- the collector

  /** The host's monotonic clock. A sleep lasts at least as long as asked for. */
  class MonotonicClock {
    var now: real

    constructor (start: real)
      ensures now == start
    {
      now := start;
    }

    method Elapse()
      modifies this
      ensures now >= old(now)
    {
      var later: real := *;
      now := if later > now then later else now;
    }

    method Sleep(seconds: real)
      requires seconds >= 0.0
      modifies this
      ensures now >= old(now) + seconds
    {
      now := now + seconds;
      Elapse();
    }
  }

  /** One _sample: reading memory, swap and disks takes time and may fail. */
  method TakeSample(clock: MonotonicClock, identity: Identity) returns (r: Result<TrustedSample, string>)
    modifies clock
    ensures old(clock.now) <= clock.now
    ensures r.Success? ==> r.value.identity == identity && old(clock.now) <= r.value.monotonic <= clock.now
  {
    var malformed: bool := *;
    if malformed {
      return Failure("malformed_meminfo");
    }
    clock.Elapse();
    var unavailable: bool := *;
    if unavailable {
      return Failure("resource_metric_unavailable");
    }
    var metrics: Metrics := *;
    r := Success(TrustedSample(identity, clock.now, metrics));
    clock.Elapse();
  }

  /** The only way left for _evaluate to reject what the collector itself gathered: its lower bounds and its
      identity test cannot fail there. */
  predicate TooSlow(samples: seq<TrustedSample>)
    requires |samples| == 7
  {
    || (exists i :: 0 < i < 7 && samples[i].monotonic - samples[i - 1].monotonic > 6.0)
    || samples[6].monotonic - samples[0].monotonic > 33.0
  }

  predicate Spaced(samples: seq<TrustedSample>, identity: Identity) {
    && (forall i :: 0 <= i < |samples| ==> samples[i].identity == identity)
    && (forall i :: 0 < i < |samples| ==> samples[i].monotonic >= samples[i - 1].monotonic + 5.0)
  }

  lemma SpacedOnlyTooSlow(samples: seq<TrustedSample>, identity: Identity)
    requires |samples| == 7 && Spaced(samples, identity)
    ensures Evaluate(samples).Failure? <==> TooSlow(samples)
  {
    assert forall i :: 0 < i < 7 ==>
      (Steady(samples, i) <==> !(samples[i].monotonic - samples[i - 1].monotonic > 6.0));
    assert samples[1].monotonic >= samples[0].monotonic + 5.0;
    assert samples[2].monotonic >= samples[1].monotonic + 5.0;
    assert samples[3].monotonic >= samples[2].monotonic + 5.0;
    assert samples[4].monotonic >= samples[3].monotonic + 5.0;
    assert samples[5].monotonic >= samples[4].monotonic + 5.0;
    assert samples[6].monotonic >= samples[5].monotonic + 5.0;
  }

  /** TrustedProductionResourceCollector.collect: seven samples, five seconds of sleep between two. */
  method Collect(clock: MonotonicClock, identity: Identity)
    returns (samples: seq<TrustedSample>, verdict: Result<bool, string>)
    modifies clock
    ensures |samples| == 7 ==> Spaced(samples, identity) && verdict == Evaluate(samples)
    ensures |samples| == 7 ==> (verdict.Failure? <==> TooSlow(samples))
    ensures |samples| != 7 ==> verdict.Failure?
    ensures clock.now >= old(clock.now) + if |samples| == 7 then 30.0 else 0.0
  {
    samples := [];
    for index := 0 to 7
      invariant |samples| == index && Spaced(samples, identity)
      invariant index > 0 ==> clock.now >= samples[index - 1].monotonic + if index < 7 then 5.0 else 0.0
      invariant clock.now >= old(clock.now) + 5.0 * (if index < 7 then index else 6) as real
    {
      var sample := TakeSample(clock, identity);
      if sample.Failure? {
        return samples, Failure(sample.error);
      }
      samples := samples + [sample.value];
      if index < 6 {
        clock.Sleep(5.0);
      }
    }
    SpacedOnlyTooSlow(samples, identity);
    verdict := Evaluate(samples);
  }
}
