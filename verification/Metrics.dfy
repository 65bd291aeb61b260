/** The metrics collector: a sliding window of completions, two totals and percentile ranks. */
module Metrics {
  import opened TaskStorage
  import opened WorkerRegistry

  datatype Sample = Sample(latency: int, completedAt: int)

  /** The last `n` elements, or all of them when there are fewer. */
  function Last<T>(xs: seq<T>, n: nat): (r: seq<T>)
    ensures |r| == if |xs| <= n then |xs| else n
    ensures r == xs[|xs| - |r|..]
  {
    if |xs| <= n then xs else xs[|xs| - n..]
  }

  predicate Ascending(xs: seq<int>) {
    forall i, j :: 0 <= i <= j < |xs| ==> xs[i] <= xs[j]
  }

  function Insert(x: int, xs: seq<int>): (r: seq<int>)
    ensures multiset(r) == multiset(xs) + multiset{x}
  {
    if xs == [] then [x]
    else if x <= xs[0] then [x] + xs
    else
      assert xs == [xs[0]] + xs[1..];
      [xs[0]] + Insert(x, xs[1..])
  }

  lemma ConsKeepsOrder(x: int, xs: seq<int>)
    requires Ascending(xs) && forall y :: y in xs ==> x <= y
    ensures Ascending([x] + xs)
  {
    var r := [x] + xs;
    forall i, j | 0 <= i <= j < |r|
      ensures r[i] <= r[j]
    {
      if i == 0 && j > 0 { assert xs[j - 1] in xs; }
    }
  }

  lemma InsertMembers(x: int, xs: seq<int>)
    ensures forall y :: y in Insert(x, xs) ==> y == x || y in xs
  {
    forall y | y in Insert(x, xs)
      ensures y == x || y in xs
    {
      assert y in multiset(Insert(x, xs));
    }
  }

  lemma {:induction false} InsertKeepsOrder(x: int, xs: seq<int>)
    requires Ascending(xs)
    ensures Ascending(Insert(x, xs))
  {
    if xs != [] && x > xs[0] {
      InsertKeepsOrder(x, xs[1..]);
      InsertMembers(x, xs[1..]);
      ConsKeepsOrder(xs[0], Insert(x, xs[1..]));
    }
  }

  /** The sorted copy that the library sort makes of the window's latencies. */
  function Sorted(xs: seq<int>): (r: seq<int>)
    ensures Ascending(r) && multiset(r) == multiset(xs)
    ensures |r| == |xs|
  {
    if xs == [] then []
    else
      assert xs == [xs[0]] + xs[1..];
      InsertKeepsOrder(xs[0], Sorted(xs[1..]));
      var r := Insert(xs[0], Sorted(xs[1..]));
      assert |multiset(r)| == |r| && |multiset(xs)| == |xs|;
      r
  }

  function PercentileIndex(n: nat, pct: nat): nat
    requires n > 0
  {
    ((n - 1) * pct) / 100
  }

  lemma PercentileIndexInRange(n: nat, pct: nat)
    requires n > 0 && pct <= 100
    ensures PercentileIndex(n, pct) < n
  {
    ProductGrows(n - 1, pct, 100);
    QuotientGrows((n - 1) * pct, (n - 1) * 100);
  }

  lemma ProductGrows(a: nat, p: nat, q: nat)
    requires p <= q
    ensures a * p <= a * q
  {
  }

  lemma QuotientGrows(x: nat, y: nat)
    requires x <= y
    ensures x / 100 <= y / 100
  {
  }

  lemma PercentileIndexMonotone(n: nat, p: nat, q: nat)
    requires n > 0 && p <= q
    ensures PercentileIndex(n, p) <= PercentileIndex(n, q)
  {
    ProductGrows(n - 1, p, q);
    QuotientGrows((n - 1) * p, (n - 1) * q);
  }

  /** `percentile` of an already sorted list; 0 for an empty one. */
  function Percentile(values: seq<int>, pct: nat): int
    requires pct <= 100
  {
    if values == [] then 0
    else
      PercentileIndexInRange(|values|, pct);
      values[PercentileIndex(|values|, pct)]
  }

  function CountAtMost(xs: seq<int>, v: int): nat {
    if xs == [] then 0 else (if xs[0] <= v then 1 else 0) + CountAtMost(xs[1..], v)
  }

  function CountAtLeast(xs: seq<int>, v: int): nat {
    if xs == [] then 0 else (if xs[0] >= v then 1 else 0) + CountAtLeast(xs[1..], v)
  }

  lemma MatchHead(xs: seq<int>, ys: seq<int>) returns (k: nat)
    requires multiset(xs) == multiset(ys) && xs != []
    ensures k < |ys| && ys[k] == xs[0]
    ensures multiset(xs[1..]) == multiset(ys[..k] + ys[k + 1..])
  {
    assert xs[0] in multiset(ys);
    k :| 0 <= k < |ys| && ys[k] == xs[0];
    assert xs == [xs[0]] + xs[1..];
    assert ys == ys[..k] + [ys[k]] + ys[k + 1..];
    assert multiset(ys) == multiset{ys[k]} + multiset(ys[..k] + ys[k + 1..]);
    assert multiset(xs[1..]) == multiset(xs) - multiset{xs[0]};
  }

  /** Counting does not depend on order. */
  lemma {:induction false} CountsIgnoreOrder(xs: seq<int>, ys: seq<int>, v: int)
    requires multiset(xs) == multiset(ys)
    ensures CountAtMost(xs, v) == CountAtMost(ys, v)
    ensures CountAtLeast(xs, v) == CountAtLeast(ys, v)
    decreases |xs|
  {
    if xs == [] {
      assert |multiset(ys)| == 0;
    } else {
      var k := MatchHead(xs, ys);
      var rest := ys[..k] + ys[k + 1..];
      CountsIgnoreOrder(xs[1..], rest, v);
      CountsWithout(ys, k, v);
    }
  }

  lemma {:induction false} CountsWithout(ys: seq<int>, k: nat, v: int)
    requires k < |ys|
    ensures var rest := ys[..k] + ys[k + 1..];
            && CountAtMost(ys, v) == CountAtMost(rest, v) + (if ys[k] <= v then 1 else 0)
            && CountAtLeast(ys, v) == CountAtLeast(rest, v) + (if ys[k] >= v then 1 else 0)
  {
    var rest := ys[..k] + ys[k + 1..];
    if k == 0 {
      assert rest == ys[1..];
    } else {
      CountsWithout(ys[1..], k - 1, v);
      assert rest[1..] == ys[1..][..k - 1] + ys[1..][k..];
    }
  }

  lemma {:induction false} CountsInSorted(s: seq<int>, i: nat)
    requires Ascending(s) && i < |s|
    ensures CountAtMost(s, s[i]) >= i + 1
    ensures CountAtLeast(s, s[i]) >= |s| - i
  {
    if i > 0 {
      CountsInSorted(s[1..], i - 1);
    } else {
      AllAtLeast(s, s[0]);
    }
  }

  lemma {:induction false} AllAtLeast(s: seq<int>, v: int)
    requires forall i :: 0 <= i < |s| ==> s[i] >= v
    ensures CountAtLeast(s, v) == |s|
  {
    if s != [] { AllAtLeast(s[1..], v); }
  }

  lemma IndexRoundsDown(n: nat, pct: nat)
    requires n > 0
    ensures 100 * PercentileIndex(n, pct) <= (n - 1) * pct < 100 * PercentileIndex(n, pct) + 100
  {
    QuotientRoundsDown((n - 1) * pct);
  }

  lemma QuotientRoundsDown(x: nat)
    ensures 100 * (x / 100) <= x < 100 * (x / 100) + 100
  {
  }

  /** The rank guarantee: the percentile is one of the samples, at least index + 1 samples are at or
      below it and at least n - index at or above it. */
  lemma PercentileRank(window: seq<int>, pct: nat)
    requires window != [] && pct <= 100
    ensures var v, k := Percentile(Sorted(window), pct), PercentileIndex(|window|, pct);
            && v in window
            && CountAtMost(window, v) >= k + 1
            && CountAtLeast(window, v) >= |window| - k
            && 100 * CountAtMost(window, v) > (|window| - 1) * pct
            && 100 * CountAtLeast(window, v) >= 100 * |window| - (|window| - 1) * pct
  {
    var s, k := Sorted(window), PercentileIndex(|window|, pct);
    IndexRoundsDown(|window|, pct);
    PercentileIndexInRange(|window|, pct);
    CountsInSorted(s, k);
    CountsIgnoreOrder(s, window, s[k]);
    assert s[k] in multiset(window);
  }

  lemma PercentilesOrdered(window: seq<int>, p: nat, q: nat)
    requires p <= q <= 100
    ensures Percentile(Sorted(window), p) <= Percentile(Sorted(window), q)
  {
    if window != [] {
      PercentileIndexMonotone(|window|, p, q);
      PercentileIndexInRange(|window|, q);
    }
  }

  function Latencies(samples: seq<Sample>): (r: seq<int>)
    ensures |r| == |samples| && forall i :: 0 <= i < |r| ==> r[i] == samples[i].latency
  {
    if samples == [] then [] else Latencies(samples[..|samples| - 1]) + [samples[|samples| - 1].latency]
  }

  function CountSince(samples: seq<Sample>, cutoff: int): (n: nat)
    ensures n <= |samples|
  {
    if samples == [] then 0
    else CountSince(samples[..|samples| - 1], cutoff) + if samples[|samples| - 1].completedAt >= cutoff then 1 else 0
  }

  function CountSuccesses(outcomes: seq<bool>): (n: nat)
    ensures n <= |outcomes|
  {
    if outcomes == [] then 0
    else CountSuccesses(outcomes[..|outcomes| - 1]) + if outcomes[|outcomes| - 1] then 1 else 0
  }

  /** The counts as numbers of places: completions no older than the cutoff, and successes. */
  lemma {:induction false} CountsAreSizes(samples: seq<Sample>, cutoff: int)
    ensures CountSince(samples, cutoff) == |set i | 0 <= i < |samples| && samples[i].completedAt >= cutoff|
  {
    if samples != [] {
      var n := |samples| - 1;
      CountsAreSizes(samples[..n], cutoff);
      var before := set i | 0 <= i < n && samples[..n][i].completedAt >= cutoff;
      var all := set i | 0 <= i < |samples| && samples[i].completedAt >= cutoff;
      assert all == before + if samples[n].completedAt >= cutoff then {n} else {};
    }
  }

  lemma {:induction false} SuccessesAreSizes(outcomes: seq<bool>)
    ensures CountSuccesses(outcomes) == |set i | 0 <= i < |outcomes| && outcomes[i]|
  {
    if outcomes != [] {
      var n := |outcomes| - 1;
      SuccessesAreSizes(outcomes[..n]);
      var before := set i | 0 <= i < n && outcomes[..n][i];
      var all := set i | 0 <= i < |outcomes| && outcomes[i];
      assert all == before + if outcomes[n] then {n} else {};
    }
  }

  datatype Snapshot = Snapshot(
    throughput: real,
    p50: int,
    p95: int,
    p99: int,
    queueDepth: nat,
    aliveWorkers: nat,
    totalOk: int,
    totalErr: int)

  class MetricsCollector {
    const tasks: TaskStore
    const workers: WorkerPool
    const windowSize: nat
    var samples: seq<Sample>
    var totalOk: int
    var totalErr: int
    /** Every completion recorded so far, with its outcome, oldest first. */
    ghost var history: seq<Sample>
    ghost var outcomes: seq<bool>

    /** The window holds the most recent completions and the totals count all of them. */
    ghost predicate Valid()
      reads this
    {
      && samples == Last(history, windowSize)
      && |outcomes| == |history|
      && totalOk == CountSuccesses(outcomes)
      && totalOk + totalErr == |history|
    }

    constructor (tasks: TaskStore, workers: WorkerPool, windowSize: nat)
      ensures Valid() && this.windowSize == windowSize && history == [] && outcomes == []
      ensures this.tasks == tasks && this.workers == workers
    {
      this.tasks, this.workers, this.windowSize := tasks, workers, windowSize;
      samples, history, outcomes := [], [], [];
      totalOk, totalErr := 0, 0;
    }

    method RecordCompletion(latency: int, success: bool, now: int)
      requires Valid()
      modifies this
      ensures Valid()
      ensures history == old(history) + [Sample(latency, now)] && outcomes == old(outcomes) + [success]
      ensures totalOk == old(totalOk) + (if success then 1 else 0)
      ensures totalErr == old(totalErr) + (if success then 0 else 1)
    {
      samples := samples + [Sample(latency, now)];
      if |samples| > windowSize {
        samples := samples[1..];
      }
      if success {
        totalOk := totalOk + 1;
      } else {
        totalErr := totalErr + 1;
      }
      history := history + [Sample(latency, now)];
      outcomes := outcomes + [success];
      assert outcomes[..|outcomes| - 1] == old(outcomes);
    }

    /** `snapshot`: the window and the totals, then the two gauges it reads from the other components. */
    method TakeSnapshot(now: int) returns (s: Snapshot)
      requires Valid() && tasks.Valid()
      ensures var window := Last(history, windowSize);
              && s.throughput == |set i | 0 <= i < |window| && now - window[i].completedAt <= 5000| as real / 5.0
              && s.p50 == Percentile(Sorted(Latencies(window)), 50)
              && s.p95 == Percentile(Sorted(Latencies(window)), 95)
              && s.p99 == Percentile(Sorted(Latencies(window)), 99)
      ensures s.p50 <= s.p95 <= s.p99
      ensures history == [] || windowSize == 0 ==> s.p50 == s.p95 == s.p99 == 0
      ensures s.queueDepth == |tasks.View().queue|
      ensures s.aliveWorkers == |set id | id in workers.workers && workers.workers[id].alive|
      ensures s.totalOk == |set i | 0 <= i < |outcomes| && outcomes[i]| && s.totalOk + s.totalErr == |history|
    {
      var latencies, recent := ReadWindow(now);
      SuccessesAreSizes(outcomes);
      CountsAreSizes(samples, now - 5000);
      ghost var young := set i | 0 <= i < |samples| && now - samples[i].completedAt <= 5000;
      assert young == set i | 0 <= i < |samples| && samples[i].completedAt >= now - 5000;
      PercentilesOrdered(latencies, 50, 95);
      PercentilesOrdered(latencies, 95, 99);
      var sorted := Sorted(latencies);
      var depth := tasks.PendingCount();
      var alive := workers.AliveCount();
      s := Snapshot(recent as real / 5.0, Percentile(sorted, 50), Percentile(sorted, 95), Percentile(sorted, 99),
        depth, alive, totalOk, totalErr);
    }

    method ReadWindow(now: int) returns (latencies: seq<int>, recent: nat)
      ensures latencies == Latencies(samples) && recent == CountSince(samples, now - 5000)
    {
      latencies, recent := [], 0;
      var i := 0;
      while i < |samples|
        invariant 0 <= i <= |samples|
        invariant latencies == Latencies(samples[..i])
        invariant recent == CountSince(samples[..i], now - 5000)
      {
        assert samples[..i + 1][..i] == samples[..i];
        latencies := latencies + [samples[i].latency];
        if samples[i].completedAt >= now - 5000 { recent := recent + 1; }
        i := i + 1;
      }
      assert samples[..i] == samples;
    }
  }
}
