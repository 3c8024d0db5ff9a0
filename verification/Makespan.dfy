/** How far the EFT and HEFT_RT plans can be from the best plan, on PEs of one resource type and with
    the clock standing still while the round is planned. */
module Makespan {
  import opened ApiMachine
  import LS = ListScheduling

  /** Execution times of tasks on PEs of the given type. */
  function Jobs(m: Machine, resource: nat, tasks: seq<Task>): seq<nat> {
    seq<nat>(|tasks|, i requires 0 <= i < |tasks| => m.cost(tasks[i].api, resource))
  }

  function PesOf(picks: seq<Pick>): seq<nat> {
    seq<nat>(|picks|, i requires 0 <= i < |picks| => picks[i].pe)
  }

  /** Identical PEs, none of them reserved past now. */
  ghost predicate Identical(m: Machine, resource: nat, avail: seq<int>, now: int) {
    && |avail| == m.Pes() && m.Timed()
    && forall k: nat :: k < m.Pes() ==> m.types[k] == resource && avail[k] <= now
  }

  ghost predicate SupportedBy(resource: nat, picks: seq<Pick>) {
    forall i :: 0 <= i < |picks| ==> resource in picks[i].task.supported
  }

  ghost predicate AllAt(now: int, picks: seq<Pick>) {
    forall i :: 0 <= i < |picks| ==> picks[i].at == now
  }

  /** Time from now until pe has finished everything planned for it. */
  function Ahead(avail: seq<int>, now: int, pe: nat): nat
    requires pe < |avail|
  {
    Later(now, avail[pe]) - now
  }

  /** avail is within num/den of every way of placing the tasks on the PEs: den * makespan <= num * span
      whenever some placement of them is done by span. */
  ghost predicate WithinRatio(m: Machine, resource: nat, tasks: seq<Task>, avail: seq<int>, now: int, num: nat,
                              den: nat)
    requires |avail| == m.Pes()
  {
    forall other: seq<nat>, span: nat, k: nat ::
      k < m.Pes() && LS.Placement(Jobs(m, resource, tasks), other, m.Pes())
      && LS.DoneBy(Jobs(m, resource, tasks), other, m.Pes(), span)
      ==> den * Ahead(avail, now, k) <= num * span
  }

  // ---- the plan is a greedy placement ----

  lemma {:induction false} LoadPrefix(p: seq<nat>, f: seq<nat>, x: nat, pe: nat, k: nat, n: nat)
    requires n <= |p| == |f|
    ensures LS.Load(p + [x], f + [pe], k, n) == LS.Load(p, f, k, n)
  {
    if n != 0 {
      LoadPrefix(p, f, x, pe, k, n - 1);
    }
  }

  lemma GreedyNext(p: seq<nat>, f: seq<nat>, x: nat, pe: nat, m: nat)
    requires LS.Placement(p, f, m) && LS.Greedy(p, f, m) && pe < m
    requires forall k: nat :: k < m ==> LS.Load(p, f, pe, |p|) <= LS.Load(p, f, k, |p|)
    ensures LS.Placement(p + [x], f + [pe], m) && LS.Greedy(p + [x], f + [pe], m)
  {
    forall i: nat | i < |p| + 1 ensures LS.LeastLoaded(p + [x], f + [pe], m, i) {
      forall k: nat | k < m ensures LS.Load(p + [x], f + [pe], (f + [pe])[i], i) <= LS.Load(p + [x], f + [pe], k, i) {
        LoadPrefix(p, f, x, pe, k, i);
        LoadPrefix(p, f, x, pe, (f + [pe])[i], i);
        if i < |p| {
          assert LS.LeastLoaded(p, f, m, i);
        }
      }
    }
  }

  lemma SplitLast(m: Machine, resource: nat, picks: seq<Pick>)
    requires picks != []
    ensures Jobs(m, resource, Order(picks)) ==
            Jobs(m, resource, Order(Front(picks))) + [m.cost(Last(picks).task.api, resource)]
    ensures PesOf(picks) == PesOf(Front(picks)) + [Last(picks).pe]
  {
  }

  /** With identical PEs, how far ahead a PE is booked is exactly the work placed on it, and earliest
      finish means least load. */
  lemma {:induction false} PlanIsGreedy(m: Machine, resource: nat, avail: seq<int>, now: int, picks: seq<Pick>)
    requires Identical(m, resource, avail, now) && m.OnPes(picks) && m.EarliestChoices(avail, now, picks)
    requires AllAt(now, picks) && SupportedBy(resource, picks)
    ensures LS.Placement(Jobs(m, resource, Order(picks)), PesOf(picks), m.Pes())
    ensures LS.Greedy(Jobs(m, resource, Order(picks)), PesOf(picks), m.Pes())
    ensures forall k: nat :: k < m.Pes() ==>
              Ahead(m.AfterAll(avail, picks), now, k) ==
                LS.Load(Jobs(m, resource, Order(picks)), PesOf(picks), k, |picks|)
    decreases |picks|
  {
    if picks != [] {
      var last := Last(picks);
      PlanIsGreedy(m, resource, avail, now, Front(picks));
      SplitLast(m, resource, picks);
      PlanStep(m, resource, m.AfterAll(avail, Front(picks)), now, last,
               Jobs(m, resource, Order(Front(picks))), PesOf(Front(picks)));
    }
  }

  lemma PlanStep(m: Machine, resource: nat, avail: seq<int>, now: int, last: Pick, p: seq<nat>, f: seq<nat>)
    requires |avail| == m.Pes() && m.Timed() && (forall k: nat :: k < m.Pes() ==> m.types[k] == resource)
    requires LS.Placement(p, f, m.Pes()) && LS.Greedy(p, f, m.Pes())
    requires forall k: nat :: k < m.Pes() ==> Ahead(avail, now, k) == LS.Load(p, f, k, |p|)
    requires m.EarliestPe(avail, now, last.task, last.pe) && last.at == now && resource in last.task.supported
    ensures var x := m.cost(last.task.api, resource);
            && LS.Placement(p + [x], f + [last.pe], m.Pes()) && LS.Greedy(p + [x], f + [last.pe], m.Pes())
            && forall k: nat :: k < m.Pes() ==>
                 Ahead(m.After(avail, last), now, k) == LS.Load(p + [x], f + [last.pe], k, |p| + 1)
  {
    var x := m.cost(last.task.api, resource);
    forall k: nat | k < m.Pes() ensures LS.Load(p, f, last.pe, |p|) <= LS.Load(p, f, k, |p|) {
      assert m.Supports(last.task, k);
      assert m.Finish(avail, now, last.task, last.pe) <= m.Finish(avail, now, last.task, k);
      assert Ahead(avail, now, k) == LS.Load(p, f, k, |p|);
      assert Ahead(avail, now, last.pe) == LS.Load(p, f, last.pe, |p|);
    }
    GreedyNext(p, f, x, last.pe, m.Pes());
    forall k: nat | k < m.Pes()
      ensures Ahead(m.After(avail, last), now, k) == LS.Load(p + [x], f + [last.pe], k, |p| + 1)
    {
      LoadPrefix(p, f, x, last.pe, k, |p|);
      assert Ahead(avail, now, k) == LS.Load(p, f, k, |p|);
    }
  }

  // ---- the bounds ----

  /** EFT, or any policy with earliest-finish choices: at most 2 - 1/m times the best makespan. */
  lemma EarliestFinishRatio(m: Machine, resource: nat, avail: seq<int>, now: int, picks: seq<Pick>)
    requires Identical(m, resource, avail, now) && m.Pes() > 0 && m.OnPes(picks) && m.EarliestChoices(avail, now, picks)
    requires AllAt(now, picks) && SupportedBy(resource, picks)
    ensures WithinRatio(m, resource, Order(picks), m.AfterAll(avail, picks), now, 2 * m.Pes() - 1, m.Pes())
  {
    var p, f, n := Jobs(m, resource, Order(picks)), PesOf(picks), m.Pes();
    PlanIsGreedy(m, resource, avail, now, picks);
    forall other: seq<nat>, span: nat, k: nat | k < n && LS.Placement(p, other, n) && LS.DoneBy(p, other, n, span)
      ensures n * Ahead(m.AfterAll(avail, picks), now, k) <= (2 * n - 1) * span
    {
      LS.GrahamRatio(p, f, n, other, span, k);
      assert Ahead(m.AfterAll(avail, picks), now, k) == LS.Load(p, f, k, |picks|);
    }
  }

  /** Graham's form: m * makespan is at most all the work and m - 1 times the longest task. */
  lemma EarliestFinishBound(m: Machine, resource: nat, avail: seq<int>, now: int, picks: seq<Pick>, k: nat)
    requires Identical(m, resource, avail, now) && k < m.Pes() && m.OnPes(picks) && m.EarliestChoices(avail, now, picks)
    requires AllAt(now, picks) && SupportedBy(resource, picks)
    ensures var p := Jobs(m, resource, Order(picks));
            m.Pes() * Ahead(m.AfterAll(avail, picks), now, k) <= LS.Sum(p, |p|) + (m.Pes() - 1) * LS.Longest(p, |p|)
  {
    PlanIsGreedy(m, resource, avail, now, picks);
    LS.GrahamBound(Jobs(m, resource, Order(picks)), PesOf(picks), m.Pes(), |picks|, k);
  }

  /** HEFT_RT: the tasks come longest first, so at most 4/3 - 1/(3m) times the best makespan. */
  lemma LongestFirstRatio(m: Machine, resource: nat, avail: seq<int>, now: int, picks: seq<Pick>)
    requires Identical(m, resource, avail, now) && m.Pes() > 0 && m.OnPes(picks) && m.EarliestChoices(avail, now, picks)
    requires AllAt(now, picks) && SupportedBy(resource, picks)
    requires LS.Decreasing(Jobs(m, resource, Order(picks)))
    ensures WithinRatio(m, resource, Order(picks), m.AfterAll(avail, picks), now, 4 * m.Pes() - 1, 3 * m.Pes())
  {
    var p, f, n := Jobs(m, resource, Order(picks)), PesOf(picks), m.Pes();
    PlanIsGreedy(m, resource, avail, now, picks);
    forall other: seq<nat>, span: nat, k: nat | k < n && LS.Placement(p, other, n) && LS.DoneBy(p, other, n, span)
      ensures 3 * n * Ahead(m.AfterAll(avail, picks), now, k) <= (4 * n - 1) * span
    {
      LS.LptRatio(p, f, n, other, span, |picks|, k);
      assert Ahead(m.AfterAll(avail, picks), now, k) == LS.Load(p, f, k, |picks|);
    }
  }

  // ---- ranking tasks of one resource type ----

  lemma {:induction false} OnlyType(cost: (nat, nat) -> nat, t: Task, resource: nat, n: nat)
    requires t.supported == {resource}
    ensures CostSum(cost, t, n) == if resource < n then cost(t.api, resource) else 0
    ensures SupportedCount(t, n) == if resource < n then 1 else 0
  {
    if n != 0 {
      OnlyType(cost, t, resource, n - 1);
    }
  }

  /** Supporting one type only, a task's rank is its execution time there. */
  lemma RankIsCost(cost: (nat, nat) -> nat, t: Task, resource: nat)
    requires t.supported == {resource} && resource < RESOURCE_TYPES
    ensures Rank(cost, t) == cost(t.api, resource)
  {
    OnlyType(cost, t, resource, RESOURCE_TYPES);
  }

  lemma RankedIsDecreasing(m: Machine, resource: nat, tasks: seq<Task>)
    requires RankedDown(m.cost, tasks) && resource < RESOURCE_TYPES
    requires forall i :: 0 <= i < |tasks| ==> tasks[i].supported == {resource}
    ensures LS.Decreasing(Jobs(m, resource, tasks))
  {
    var p := Jobs(m, resource, tasks);
    forall i, j | 0 <= i <= j < |p| ensures p[i] >= p[j] {
      RankIsCost(m.cost, tasks[i], resource);
      RankIsCost(m.cost, tasks[j], resource);
    }
  }
}
