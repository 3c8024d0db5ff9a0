/** Approximation bounds for placing independent jobs on m identical PEs. A placement f gives each
    job its PE; jobs are placed in index order. No scheduler appears here: the EFT and HEFT_RT
    policies are shown elsewhere to make the choices these bounds are about. */
module ListScheduling {
  import opened Basics

  /** Work of the first n jobs on PE k. */
  function Load(p: seq<nat>, f: seq<nat>, k: nat, n: nat): nat
    requires n <= |p| == |f|
  {
    if n == 0 then 0 else Load(p, f, k, n - 1) + if f[n - 1] == k then p[n - 1] else 0
  }

  function Sum(p: seq<nat>, n: nat): nat
    requires n <= |p|
  {
    if n == 0 then 0 else Sum(p, n - 1) + p[n - 1]
  }

  function Longest(p: seq<nat>, n: nat): nat
    requires n <= |p|
  {
    if n == 0 then 0 else if p[n - 1] > Longest(p, n - 1) then p[n - 1] else Longest(p, n - 1)
  }

  /** f uses PEs 0..m-1. */
  ghost predicate Placement(p: seq<nat>, f: seq<nat>, m: nat) {
    |f| == |p| && forall i :: 0 <= i < |f| ==> f[i] < m
  }

  /** Every PE is done by time span. */
  ghost predicate DoneBy(p: seq<nat>, f: seq<nat>, m: nat, span: nat)
    requires |p| == |f|
  {
    forall k: nat :: k < m ==> Load(p, f, k, |p|) <= span
  }

  /** Each job goes to a PE with least work so far. */
  ghost predicate Greedy(p: seq<nat>, f: seq<nat>, m: nat)
    requires |p| == |f|
  {
    forall i: nat :: i < |p| ==> LeastLoaded(p, f, m, i)
  }

  ghost predicate LeastLoaded(p: seq<nat>, f: seq<nat>, m: nat, i: nat)
    requires i < |p| == |f|
  {
    forall k: nat :: k < m ==> Load(p, f, f[i], i) <= Load(p, f, k, i)
  }

  ghost predicate Decreasing(p: seq<nat>) {
    forall i, j :: 0 <= i <= j < |p| ==> p[i] >= p[j]
  }

  // ---- conservation of work ----

  function LoadSum(p: seq<nat>, f: seq<nat>, m: nat, n: nat): nat
    requires n <= |p| == |f|
  {
    if m == 0 then 0 else LoadSum(p, f, m - 1, n) + Load(p, f, m - 1, n)
  }

  lemma {:induction false} LoadSumStep(p: seq<nat>, f: seq<nat>, m: nat, n: nat)
    requires 0 < n <= |p| == |f|
    ensures LoadSum(p, f, m, n) == LoadSum(p, f, m, n - 1) + if f[n - 1] < m then p[n - 1] else 0
  {
    if m != 0 {
      LoadSumStep(p, f, m - 1, n);
    }
  }

  lemma {:induction false} LoadsAddUp(p: seq<nat>, f: seq<nat>, m: nat, n: nat)
    requires n <= |p| && Placement(p, f, m)
    ensures LoadSum(p, f, m, n) == Sum(p, n)
  {
    if n == 0 {
      NoLoad(p, f, m);
    } else {
      LoadSumStep(p, f, m, n);
      LoadsAddUp(p, f, m, n - 1);
    }
  }

  lemma {:induction false} NoLoad(p: seq<nat>, f: seq<nat>, m: nat)
    requires |p| == |f|
    ensures LoadSum(p, f, m, 0) == 0
  {
    if m != 0 {
      NoLoad(p, f, m - 1);
    }
  }

  /** If every PE has at least (at most) c, they have at least (at most) m * c together. */
  lemma {:induction false} LoadSumBounds(p: seq<nat>, f: seq<nat>, m: nat, n: nat, c: nat)
    requires n <= |p| == |f|
    ensures (forall k: nat :: k < m ==> Load(p, f, k, n) >= c) ==> LoadSum(p, f, m, n) >= m * c
    ensures (forall k: nat :: k < m ==> Load(p, f, k, n) <= c) ==> LoadSum(p, f, m, n) <= m * c
  {
    if m != 0 {
      LoadSumBounds(p, f, m - 1, n, c);
      assert m * c == (m - 1) * c + c;
    }
  }

  lemma {:induction false} LoadGrows(p: seq<nat>, f: seq<nat>, k: nat, n: nat, n': nat)
    requires n <= n' <= |p| == |f|
    ensures Load(p, f, k, n) <= Load(p, f, k, n')
  {
    if n < n' {
      LoadGrows(p, f, k, n, n' - 1);
    }
  }

  lemma {:induction false} OneJobLoad(p: seq<nat>, f: seq<nat>, i: nat, n: nat)
    requires i < n <= |p| == |f|
    ensures p[i] <= Load(p, f, f[i], n)
  {
    if i < n - 1 {
      OneJobLoad(p, f, i, n - 1);
    }
  }

  // ---- Graham's bound ----

  lemma {:induction false} GrahamBound(p: seq<nat>, f: seq<nat>, m: nat, n: nat, k: nat)
    requires n <= |p| && Placement(p, f, m) && Greedy(p, f, m) && k < m
    ensures m * Load(p, f, k, n) <= Sum(p, n) + (m - 1) * Longest(p, n)
  {
    if n != 0 {
      GrahamBound(p, f, m, n - 1, k);
      if f[n - 1] == k {
        LeastIsAverage(p, f, m, n - 1);
        GrahamStep(m, Load(p, f, k, n - 1), p[n - 1], Sum(p, n - 1), Longest(p, n));
      } else {
        GrahamKept(m, Load(p, f, k, n - 1), p[n - 1], Sum(p, n - 1), Longest(p, n - 1), Longest(p, n));
      }
    }
  }

  /** The PE chosen for job i has at most the average load. */
  lemma LeastIsAverage(p: seq<nat>, f: seq<nat>, m: nat, i: nat)
    requires i < |p| && Placement(p, f, m) && Greedy(p, f, m)
    ensures m * Load(p, f, f[i], i) <= Sum(p, i)
  {
    assert LeastLoaded(p, f, m, i);
    LoadSumBounds(p, f, m, i, Load(p, f, f[i], i));
    LoadsAddUp(p, f, m, i);
  }

  lemma GrahamKept(m: nat, load: nat, job: nat, sum: nat, longest: nat, longest': nat)
    requires m > 0 && m * load <= sum + (m - 1) * longest && longest <= longest'
    ensures m * load <= sum + job + (m - 1) * longest'
  {
    MulMono(longest, longest', m - 1);
  }

  lemma GrahamStep(m: nat, load: nat, job: nat, sum: nat, longest: nat)
    requires m > 0 && m * load <= sum && job <= longest
    ensures m * (load + job) <= sum + job + (m - 1) * longest
  {
    assert m * (load + job) == m * load + m * job;
    assert m * job == job + (m - 1) * job;
    MulMono(job, longest, m - 1);
  }

  /** No placement can beat the average load or the longest job. */
  lemma {:induction false} LongestWithin(p: seq<nat>, f: seq<nat>, m: nat, n: nat, span: nat)
    requires n <= |p| && Placement(p, f, m) && DoneBy(p, f, m, span)
    ensures Longest(p, n) <= span
  {
    if n != 0 {
      LongestWithin(p, f, m, n - 1, span);
      OneJobLoad(p, f, n - 1, |p|);
    }
  }

  lemma SumWithin(p: seq<nat>, f: seq<nat>, m: nat, span: nat)
    requires Placement(p, f, m) && DoneBy(p, f, m, span)
    ensures Sum(p, |p|) <= m * span
  {
    LoadsAddUp(p, f, m, |p|);
    LoadSumBounds(p, f, m, |p|, span);
  }

  /** A greedy placement takes at most 2 - 1/m times as long as any other. */
  lemma GrahamRatio(p: seq<nat>, f: seq<nat>, m: nat, other: seq<nat>, span: nat, k: nat)
    requires Placement(p, f, m) && Greedy(p, f, m) && k < m
    requires Placement(p, other, m) && DoneBy(p, other, m, span)
    ensures m * Load(p, f, k, |p|) <= (2 * m - 1) * span
  {
    GrahamBound(p, f, m, |p|, k);
    LongestWithin(p, other, m, |p|, span);
    SumWithin(p, other, m, span);
    GrahamArithmetic(m, Load(p, f, k, |p|), Sum(p, |p|), Longest(p, |p|), span);
  }

  lemma GrahamArithmetic(m: nat, load: nat, sum: nat, longest: nat, span: nat)
    requires m > 0 && m * load <= sum + (m - 1) * longest && sum <= m * span && longest <= span
    ensures m * load <= (2 * m - 1) * span
  {
    MulMono(longest, span, m - 1);
    assert m * span + (m - 1) * span == (2 * m - 1) * span;
  }

  // ---- longest processing time first ----

  /** Weight 2 for the first b jobs, 1 for the others. */
  function Weights(n: nat, b: nat): seq<nat> {
    seq(n, i => if i < b then 2 else 1)
  }

  lemma {:induction false} WeightSum(size: nat, b: nat, n: nat)
    requires n <= size
    ensures Sum(Weights(size, b), n) == n + if n < b then n else b
  {
    if n != 0 {
      WeightSum(size, b, n - 1);
    }
  }

  /** A PE of weight at most 1 holds nothing, or one job that is not among the b first. */
  lemma {:induction false} LightLoad(p: seq<nat>, f: seq<nat>, k: nat, n: nat, b: nat)
    requires n <= |p| == |f| && b < |p| && Decreasing(p)
    ensures Load(Weights(|p|, b), f, k, n) == 0 ==> Load(p, f, k, n) == 0
    ensures Load(Weights(|p|, b), f, k, n) == 1 ==> Load(p, f, k, n) <= p[b]
  {
    if n != 0 {
      LightLoad(p, f, k, n - 1, b);
    }
  }

  /** However n jobs are placed, m <= n < 2m, some PE has at most the work of job 2m - n - 1. */
  lemma SomePeIsLight(p: seq<nat>, f: seq<nat>, m: nat, n: nat) returns (k: nat)
    requires n < |p| && Placement(p, f, m) && Decreasing(p) && m <= n < 2 * m
    ensures k < m && Load(p, f, k, n) <= p[2 * m - n - 1]
  {
    var b := 2 * m - n - 1;
    var w := Weights(|p|, b);
    WeightSum(|p|, b, n);
    LoadsAddUp(w, f, m, n);
    LoadSumBounds(w, f, m, n, 2);
    k :| k < m && Load(w, f, k, n) < 2;
    LightLoad(p, f, k, n, b);
  }

  /** With fewer jobs than PEs, some PE has no work. */
  lemma SomePeIsFree(p: seq<nat>, f: seq<nat>, m: nat, n: nat) returns (k: nat)
    requires n < m && n < |p| && Placement(p, f, m) && Decreasing(p)
    ensures k < m && Load(p, f, k, n) == 0
  {
    var w := Weights(|p|, 0);
    WeightSum(|p|, 0, n);
    LoadsAddUp(w, f, m, n);
    LoadSumBounds(w, f, m, n, 1);
    k :| k < m && Load(w, f, k, n) < 1;
    LightLoad(p, f, k, n, 0);
  }

  function Min(a: nat, b: nat): nat { if a < b then a else b }

  /** Weight 3 on a PE means three jobs, or one of the b first and another. */
  lemma {:induction false} HeavyLoad(p: seq<nat>, f: seq<nat>, k: nat, n: nat, b: nat, big: nat, small: nat)
    requires n <= |p| == |f| && small <= big
    requires forall i :: 0 <= i < n ==> p[i] >= small && (i < b ==> p[i] >= big)
    ensures var w := Load(Weights(|p|, b), f, k, n);
            && (w >= 1 ==> Load(p, f, k, n) >= small)
            && (w >= 2 ==> Load(p, f, k, n) >= Min(big, 2 * small))
            && (w >= 3 ==> Load(p, f, k, n) >= Min(big + small, 3 * small))
  {
    if n != 0 {
      HeavyLoad(p, f, k, n - 1, b, big, small);
    }
  }

  /** Any placement of j + 1 jobs, m <= j < 2m, needs three times job j or jobs 2m-j-1 and j. */
  lemma SomePeIsHeavy(p: seq<nat>, f: seq<nat>, m: nat, j: nat, span: nat)
    requires j < |p| && Placement(p, f, m) && Decreasing(p) && m <= j < 2 * m && DoneBy(p, f, m, span)
    ensures span >= Min(p[2 * m - j - 1] + p[j], 3 * p[j])
  {
    var b := 2 * m - j;
    var w := Weights(|p|, b);
    WeightSum(|p|, b, j + 1);
    LoadsAddUp(w, f, m, j + 1);
    LoadSumBounds(w, f, m, j + 1, 2);
    var k: nat :| k < m && Load(w, f, k, j + 1) > 2;
    HeavyLoad(p, f, k, j + 1, b, p[b - 1], p[j]);
    LoadGrows(p, f, k, j + 1, |p|);
  }

  /** Any placement of more than 2m jobs puts three on one PE. */
  lemma ThreeOnOnePe(p: seq<nat>, f: seq<nat>, m: nat, j: nat, span: nat)
    requires j < |p| && Placement(p, f, m) && Decreasing(p) && j >= 2 * m && DoneBy(p, f, m, span)
    ensures span >= 3 * p[j]
  {
    var w := Weights(|p|, 0);
    WeightSum(|p|, 0, j + 1);
    LoadsAddUp(w, f, m, j + 1);
    LoadSumBounds(w, f, m, j + 1, 2);
    var k: nat :| k < m && Load(w, f, k, j + 1) > 2;
    HeavyLoad(p, f, k, j + 1, 0, 2 * p[j], p[j]);
    LoadGrows(p, f, k, j + 1, |p|);
  }

  /** A job longer than a third of the other placement's span is finished by that span. */
  lemma LongJobOnTime(p: seq<nat>, f: seq<nat>, m: nat, other: seq<nat>, span: nat, j: nat)
    requires Placement(p, f, m) && Greedy(p, f, m) && Decreasing(p) && j < |p|
    requires Placement(p, other, m) && DoneBy(p, other, m, span) && 3 * p[j] > span
    ensures Load(p, f, f[j], j + 1) <= span
  {
    OneJobLoad(p, other, j, |p|);
    assert LeastLoaded(p, f, m, j);
    if j < m {
      var k := SomePeIsFree(p, f, m, j);
    } else {
      if j >= 2 * m {
        ThreeOnOnePe(p, other, m, j, span);
      }
      SomePeIsHeavy(p, other, m, j, span);
      var k := SomePeIsLight(p, f, m, j);
    }
  }

  /** A job of at most a third of the span costs at most a third of the average argument's slack. */
  lemma ShortJobStep(m: nat, load: nat, job: nat, total: nat, sum: nat, span: nat)
    requires total == load + job && m > 0 && m * load <= sum && sum + job <= m * span && 3 * job <= span
    ensures 3 * m * total <= (4 * m - 1) * span
  {
    SplitWork(m, load, job);
    SplitSpan(m, span);
    MulMono(3 * job, span, m - 1);
  }

  lemma SplitWork(m: int, load: int, job: int)
    ensures 3 * m * (load + job) == 3 * (m * load) + 3 * job + (m - 1) * (3 * job)
  {
    assert m * (load + job) == m * load + m * job;
    assert (m - 1) * (3 * job) == 3 * (m * job) - 3 * job;
  }

  lemma SplitSpan(m: int, span: int)
    ensures (4 * m - 1) * span == 3 * (m * span) + (m - 1) * span
  {
  }

  lemma {:induction false} SumGrows(p: seq<nat>, n: nat, n': nat)
    requires n <= n' <= |p|
    ensures Sum(p, n) <= Sum(p, n')
  {
    if n < n' {
      SumGrows(p, n, n' - 1);
    }
  }

  lemma LptJob(p: seq<nat>, f: seq<nat>, m: nat, other: seq<nat>, span: nat, j: nat)
    requires Placement(p, f, m) && Greedy(p, f, m) && Decreasing(p) && j < |p| && m > 0
    requires Placement(p, other, m) && DoneBy(p, other, m, span)
    ensures 3 * m * Load(p, f, f[j], j + 1) <= (4 * m - 1) * span
  {
    if 3 * p[j] <= span {
      LptShortJob(p, f, m, other, span, j);
    } else {
      LptLongJob(p, f, m, other, span, j);
    }
  }

  lemma LptLongJob(p: seq<nat>, f: seq<nat>, m: nat, other: seq<nat>, span: nat, j: nat)
    requires Placement(p, f, m) && Greedy(p, f, m) && Decreasing(p) && j < |p| && m > 0 && 3 * p[j] > span
    requires Placement(p, other, m) && DoneBy(p, other, m, span)
    ensures 3 * m * Load(p, f, f[j], j + 1) <= (4 * m - 1) * span
  {
    LongJobOnTime(p, f, m, other, span, j);
    WithinSpan(m, Load(p, f, f[j], j + 1), span);
  }

  lemma LptShortJob(p: seq<nat>, f: seq<nat>, m: nat, other: seq<nat>, span: nat, j: nat)
    requires Placement(p, f, m) && Greedy(p, f, m) && j < |p| && m > 0 && 3 * p[j] <= span
    requires Placement(p, other, m) && DoneBy(p, other, m, span)
    ensures 3 * m * Load(p, f, f[j], j + 1) <= (4 * m - 1) * span
  {
    AverageBound(p, f, m, j);
    WorkWithin(p, other, m, span, j);
    ShortJobStep(m, Load(p, f, f[j], j), p[j], Load(p, f, f[j], j + 1), Sum(p, j), span);
  }

  lemma WorkWithin(p: seq<nat>, other: seq<nat>, m: nat, span: nat, j: nat)
    requires Placement(p, other, m) && DoneBy(p, other, m, span) && j < |p|
    ensures Sum(p, j) + p[j] <= m * span
  {
    SumGrows(p, j + 1, |p|);
    SumWithin(p, other, m, span);
  }

  /** The least loaded PE has at most the average. */
  lemma AverageBound(p: seq<nat>, f: seq<nat>, m: nat, j: nat)
    requires Placement(p, f, m) && Greedy(p, f, m) && j < |p|
    ensures m * Load(p, f, f[j], j) <= Sum(p, j)
  {
    assert LeastLoaded(p, f, m, j);
    LoadSumBounds(p, f, m, j, Load(p, f, f[j], j));
    LoadsAddUp(p, f, m, j);
  }

  lemma WithinSpan(m: nat, x: nat, span: nat)
    requires m > 0 && x <= span
    ensures 3 * m * x <= (4 * m - 1) * span
  {
    MulMono(x, span, 3 * m);
    MulMono(3 * m, 4 * m - 1, span);
  }

  /** Longest-job-first greedy placement takes at most 4/3 - 1/(3m) times as long as any other. */
  lemma {:induction false} LptRatio(p: seq<nat>, f: seq<nat>, m: nat, other: seq<nat>, span: nat, n: nat, k: nat)
    requires Placement(p, f, m) && Greedy(p, f, m) && Decreasing(p) && n <= |p| && k < m
    requires Placement(p, other, m) && DoneBy(p, other, m, span)
    ensures 3 * m * Load(p, f, k, n) <= (4 * m - 1) * span
  {
    if n != 0 {
      if f[n - 1] == k {
        LptJob(p, f, m, other, span, n - 1);
      } else {
        LptRatio(p, f, m, other, span, n - 1, k);
      }
    }
  }
}
