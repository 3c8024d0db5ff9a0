/** What whole scheduling rounds of the API runtime achieve: nothing is lost, ETF picks in order of
    finish time, and the EFT and HEFT_RT plans are close to the best one. */
module ApiRounds {
  import opened Basics
  import opened ApiMachine
  import opened ApiScheduler
  import opened Makespan
  import LS = ListScheduling

  // ---- conservation ----

  /** Everything in the todo deques of the first n PEs. */
  function InDeques(todo: seq<seq<Task>>, n: nat): multiset<Task>
    requires n <= |todo|
  {
    if n == 0 then multiset{} else InDeques(todo, n - 1) + multiset(todo[n - 1])
  }

  lemma {:induction false} PushedOne(todo: seq<seq<Task>>, pe: nat, t: Task, n: nat)
    requires pe < |todo| && n <= |todo|
    ensures InDeques(todo[pe := todo[pe] + [t]], n) == InDeques(todo, n) + if pe < n then multiset{t} else multiset{}
  {
    if n != 0 {
      PushedOne(todo, pe, t, n - 1);
    }
  }

  lemma {:induction false} PlacedAll(m: Machine, todo: seq<seq<Task>>, picks: seq<Pick>)
    requires m.OnPes(picks) && |todo| == m.Pes()
    ensures InDeques(m.Placed(todo, picks), m.Pes()) == InDeques(todo, m.Pes()) + Tasks(picks)
    decreases |picks|
  {
    if picks != [] {
      PlacedAll(m, todo, Front(picks));
      PushedOne(m.Placed(todo, Front(picks)), Last(picks).pe, Last(picks).task, m.Pes());
    }
  }

  /** A round moves tasks from the ready queue to the deques and neither loses nor repeats any. */
  lemma RoundConserves(m: Machine, ready0: seq<Task>, todo0: seq<seq<Task>>, avail0: seq<int>,
                       ready: seq<Task>, todo: seq<seq<Task>>, avail: seq<int>, picks: seq<Pick>)
    requires |todo0| == |avail0| == m.Pes() && m.Did(ready0, todo0, avail0, ready, todo, avail, picks)
    ensures multiset(ready) + InDeques(todo, m.Pes()) == multiset(ready0) + InDeques(todo0, m.Pes())
    ensures |ready0| == |ready| + |picks|
  {
    PlacedAll(m, todo0, picks);
    TasksSize(picks);
    assert |multiset(ready) + Tasks(picks)| == |ready| + |picks|;
  }

  lemma {:induction false} TasksSize(picks: seq<Pick>)
    ensures |Tasks(picks)| == |picks|
    decreases |picks|
  {
    if picks != [] {
      TasksSize(Front(picks));
    }
  }

  // ---- ETF ----

  /** The finish time that pick i was made for. */
  function PickedFinish(m: Machine, avail: seq<int>, now: int, picks: seq<Pick>, i: nat): int
    requires |avail| == m.Pes() && m.OnPes(picks) && i < |picks|
  {
    m.Finish(m.AfterAll(avail, picks[..i]), now, picks[i].task, picks[i].pe)
  }

  lemma NextFinishesLater(m: Machine, avail: seq<int>, now: int, queue: multiset<Task>, p: Pick, next: Pick)
    requires |avail| == m.Pes() && p.pe < m.Pes() && m.GlobalMinimum(avail, now, queue, p.task, p.pe)
    requires m.GlobalMinimum(m.After(avail, p), now, queue - multiset{p.task}, next.task, next.pe)
    ensures m.Finish(avail, now, p.task, p.pe) <= m.Finish(m.After(avail, p), now, next.task, next.pe)
  {
    assert m.Finish(avail, now, p.task, p.pe) <= m.Finish(avail, now, next.task, next.pe);
  }

  /** The picked finish times never go down, even if the clock moves on between the picks. */
  lemma {:induction false} EtfInOrder(m: Machine, avail: seq<int>, now: int, queue: multiset<Task>, picks: seq<Pick>,
                                      i: nat, j: nat)
    requires |avail| == m.Pes() && m.OnPes(picks) && m.GlobalChoices(avail, now, queue, picks) && i <= j < |picks|
    ensures PickedFinish(m, avail, now, picks, i) <= PickedFinish(m, avail, now, picks, j)
    decreases |picks|
  {
    if i < j {
      if j < |picks| - 1 {
        EtfInOrder(m, avail, now, queue, Front(picks), i, j);
        assert Front(picks)[..i] == picks[..i] && Front(picks)[..j] == picks[..j];
      } else {
        var front := Front(picks);
        EtfInOrder(m, avail, now, queue, front, i, j - 1);
        assert front[..i] == picks[..i] && picks[..j] == front;
        assert Front(front) == front[..j - 1] == picks[..j - 1];
        assert Last(front) == picks[j - 1];
        EtfLastTwo(m, avail, now, queue, front, Last(picks));
      }
    }
  }

  lemma EtfLastTwo(m: Machine, avail: seq<int>, now: int, queue: multiset<Task>, front: seq<Pick>, last: Pick)
    requires |avail| == m.Pes() && m.OnPes(front) && front != [] && m.GlobalChoices(avail, now, queue, front)
    requires m.GlobalMinimum(m.AfterAll(avail, front), now, queue - Tasks(front), last.task, last.pe)
    ensures m.Finish(m.AfterAll(avail, Front(front)), now, Last(front).task, Last(front).pe)
         <= m.Finish(m.AfterAll(avail, front), now, last.task, last.pe)
  {
    var rest := queue - Tasks(Front(front));
    assert queue - Tasks(front) == rest - multiset{Last(front).task};
    NextFinishesLater(m, m.AfterAll(avail, Front(front)), now, rest, Last(front), last);
  }

  /** PickedFinish in the picks' order never goes down. */
  ghost predicate FinishInOrder(m: Machine, avail: seq<int>, now: int, picks: seq<Pick>)
    requires |avail| == m.Pes() && m.OnPes(picks)
  {
    forall i: nat, j: nat :: i <= j < |picks| ==>
      PickedFinish(m, avail, now, picks, i) <= PickedFinish(m, avail, now, picks, j)
  }

  /** An ETF round: each pick finishes first of everything left, in order of finish time. */
  method PlanEtf(s: Scheduler) returns (count: nat, ghost picks: seq<Pick>)
    requires s.Valid() && s.machine.policy == Etf && s.machine.Runnable(s.ready)
    modifies s`ready, s`todo, s`avail, s`ticks, s`free
    ensures s.Valid() && s.Moved(old(s.Now()), picks) && count == |picks|
    ensures s.machine.GlobalChoices(old(s.avail), s.clock(old(s.ticks)), multiset(old(s.ready)), picks)
    ensures FinishInOrder(s.machine, old(s.avail), s.clock(old(s.ticks)), picks)
    ensures s.queueing ==> s.ready == [] && count == |old(s.ready)|
  {
    ghost var m, avail, now, batch := s.machine, s.avail, s.clock(s.ticks), s.ready;
    count, picks := s.ScheduleEtf();
    forall i: nat, j: nat | i <= j < |picks|
      ensures PickedFinish(m, avail, now, picks, i) <= PickedFinish(m, avail, now, picks, j)
    {
      EtfInOrder(m, avail, now, multiset(batch), picks, i, j);
    }
    TasksSize(picks);
    assert |multiset(s.ready) + Tasks(picks)| == |s.ready| + |picks|;
  }

  // ---- one task a PE ----

  lemma {:induction false} TwicePicked(m: Machine, todo: seq<seq<Task>>, picks: seq<Pick>, i: nat, j: nat)
    requires m.OnPes(picks) && |todo| == m.Pes() && i < j < |picks| && picks[i].pe == picks[j].pe
    ensures |m.Placed(todo, picks)[picks[i].pe]| >= |todo[picks[i].pe]| + 2
    decreases |picks|
  {
    var front, pe := Front(picks), picks[i].pe;
    PickedPeGrows(m, todo, front, pe);
    if j < |picks| - 1 {
      TwicePicked(m, todo, front, i, j);
    } else {
      assert front[i].pe == pe;
    }
  }

  /** Without queueing a round uses each PE at most once, and only PEs that were idle. */
  lemma IdleOnce(s: Scheduler, start: Start, picks: seq<Pick>, i: nat)
    requires s.Valid() && s.Fits(start) && s.Moved(start, picks) && !s.queueing && i < |picks|
    ensures !s.busy[picks[i].pe] && start.todo[picks[i].pe] == []
    ensures forall j: nat :: j < |picks| && j != i ==> picks[j].pe != picks[i].pe
  {
    var pe := picks[i].pe;
    PickedPeGrows(s.machine, start.todo, picks, pe);
    forall j: nat | j < |picks| && j != i ensures picks[j].pe != pe {
      if picks[j].pe == pe {
        TwicePicked(s.machine, start.todo, picks, if i < j then i else j, if i < j then j else i);
      }
    }
  }

  // ---- any order of the batch has the same best plan ----

  lemma {:induction false} JobRemoved(p: seq<nat>, f: seq<nat>, i: nat, k: nat, n: nat)
    requires i < n <= |p| == |f|
    ensures LS.Load(p, f, k, n) == LS.Load(Without(p, i), Without(f, i), k, n - 1) + if f[i] == k then p[i] else 0
  {
    if i < n - 1 {
      JobRemoved(p, f, i, k, n - 1);
    } else {
      LoadAgrees(p, f, Without(p, i), Without(f, i), k, n - 1);
    }
  }

  lemma {:induction false} LoadAgrees(p: seq<nat>, f: seq<nat>, p': seq<nat>, f': seq<nat>, k: nat, n: nat)
    requires n <= |p| == |f| && n <= |p'| == |f'| && forall j :: 0 <= j < n ==> p[j] == p'[j] && f[j] == f'[j]
    ensures LS.Load(p, f, k, n) == LS.Load(p', f', k, n)
  {
    if n != 0 {
      LoadAgrees(p, f, p', f', k, n - 1);
    }
  }

  ghost predicate SameLoads(p: seq<nat>, f: seq<nat>, q: seq<nat>, g: seq<nat>)
    requires |p| == |f| && |q| == |g|
  {
    forall k: nat :: LS.Load(p, f, k, |p|) == LS.Load(q, g, k, |q|)
  }

  lemma LastElsewhere<T>(a: seq<T>, b: seq<T>) returns (i: nat)
    requires multiset(a) == multiset(b) && b != []
    ensures i < |a| && a[i] == Last(b) && multiset(Without(a, i)) == multiset(Front(b))
  {
    WithoutOne(b, |b| - 1);
    assert Last(b) in multiset(b);
    i :| 0 <= i < |a| && a[i] == Last(b);
    WithoutOne(a, i);
    assert Front(b) == Without(b, |b| - 1);
    SameRemainder(multiset(Without(a, i)), multiset(Front(b)), Last(b));
  }

  lemma SameRemainder<T>(a: multiset<T>, b: multiset<T>, x: T)
    requires a + multiset{x} == b + multiset{x}
    ensures a == b
  {
    assert (a + multiset{x}) - multiset{x} == a;
    assert (b + multiset{x}) - multiset{x} == b;
  }

  lemma ReorderedStep(p: seq<nat>, f: seq<nat>, i: nat, q: seq<nat>, g: seq<nat>)
    requires i < |p| == |f| && |q| == |g| && SameLoads(Without(p, i), Without(f, i), q, g)
    ensures SameLoads(p, f, q + [p[i]], g + [f[i]])
  {
    forall k: nat ensures LS.Load(p, f, k, |p|) == LS.Load(q + [p[i]], g + [f[i]], k, |q| + 1) {
      JobRemoved(p, f, i, k, |p|);
      LoadPrefix(q, g, p[i], f[i], k, |q|);
      assert LS.Load(Without(p, i), Without(f, i), k, |p| - 1) == LS.Load(q, g, k, |q|);
    }
  }

  /** A placement of jobs p gives one with the same loads of the same jobs in any other order. */
  lemma {:induction false} Reordered(p: seq<nat>, f: seq<nat>, q: seq<nat>, m: nat) returns (g: seq<nat>)
    requires multiset(p) == multiset(q) && LS.Placement(p, f, m)
    ensures LS.Placement(q, g, m) && SameLoads(p, f, q, g)
    decreases |q|
  {
    if q == [] {
      assert |multiset(p)| == 0;
      g := [];
    } else {
      var i := LastElsewhere(p, q);
      g := Reordered(Without(p, i), Without(f, i), Front(q), m);
      ReorderedStep(p, f, i, Front(q), g);
      assert q == Front(q) + [p[i]];
      g := g + [f[i]];
    }
  }

  lemma {:induction false} JobsMultiset(m: Machine, resource: nat, a: seq<Task>, b: seq<Task>)
    requires multiset(a) == multiset(b)
    ensures multiset(Jobs(m, resource, a)) == multiset(Jobs(m, resource, b))
    decreases |b|
  {
    if b == [] {
      assert |multiset(a)| == 0;
    } else {
      var i := LastElsewhere(a, b);
      JobsMultiset(m, resource, Without(a, i), Front(b));
      var ja, jb := Jobs(m, resource, a), Jobs(m, resource, b);
      assert Jobs(m, resource, Without(a, i)) == ja[..i] + ja[i + 1..];
      assert ja == ja[..i] + [ja[i]] + ja[i + 1..];
      assert jb == Jobs(m, resource, Front(b)) + [ja[i]];
    }
  }

  lemma RatioForAnyOrder(m: Machine, resource: nat, a: seq<Task>, b: seq<Task>, avail: seq<int>, now: int, num: nat,
                         den: nat)
    requires multiset(a) == multiset(b) && |avail| == m.Pes() && WithinRatio(m, resource, a, avail, now, num, den)
    ensures WithinRatio(m, resource, b, avail, now, num, den)
  {
    var p, q := Jobs(m, resource, b), Jobs(m, resource, a);
    JobsMultiset(m, resource, b, a);
    forall other: seq<nat>, span: nat, k: nat
      | k < m.Pes() && LS.Placement(p, other, m.Pes()) && LS.DoneBy(p, other, m.Pes(), span)
      ensures den * Ahead(avail, now, k) <= num * span
    {
      var g := Reordered(p, other, q, m.Pes());
      assert LS.DoneBy(q, g, m.Pes(), span);
    }
  }

  // ---- the makespan of a round ----

  /** The clock shows one value for the whole round. */
  ghost predicate StandsStill(clock: nat -> int, first: nat) {
    forall k: nat :: first <= k ==> clock(k) == clock(first)
  }

  lemma StampedAt(s: Scheduler, first: nat, picks: seq<Pick>)
    requires s.Stamped(first, picks) && StandsStill(s.clock, first)
    ensures AllAt(s.clock(first), picks)
  {
    forall i | 0 <= i < |picks| ensures picks[i].at == s.clock(first) {
      assert s.ReadSince(first, picks[i].at);
    }
  }

  lemma PlacedAreSupported(picks: seq<Pick>, batch: seq<Task>, resource: nat)
    requires multiset(Order(picks)) == multiset(batch)
    requires forall i :: 0 <= i < |batch| ==> resource in batch[i].supported
    ensures SupportedBy(resource, picks)
  {
    forall i | 0 <= i < |picks| ensures resource in picks[i].task.supported {
      assert Order(picks)[i] in multiset(batch);
    }
  }

  /** EFT on m PEs of one type, none busy, with queueing and a clock that stands still: everything is
      placed, and the predicted makespan is at most 2 - 1/m times that of any placement of the batch. */
  method PlanEft(s: Scheduler, resource: nat) returns (count: nat)
    requires s.Valid() && s.machine.policy == Eft && s.queueing && StandsStill(s.clock, s.ticks)
    requires Identical(s.machine, resource, s.avail, s.clock(s.ticks))
    requires forall i :: 0 <= i < |s.ready| ==> resource in s.ready[i].supported
    modifies s`ready, s`todo, s`avail, s`ticks, s`free
    ensures s.Valid() && s.ready == [] && count == old(|s.ready|)
    ensures WithinRatio(s.machine, resource, old(s.ready), s.avail, s.clock(old(s.ticks)), 2 * s.machine.Pes() - 1,
                        s.machine.Pes())
  {
    ghost var m, batch, avail, first := s.machine, s.ready, s.avail, s.ticks;
    ghost var picks;
    count, picks := s.ScheduleEft();
    AllSupported(m, resource, avail, s.clock(first), batch);
    AllRunnable(m, batch, |batch|);
    assert batch[..|batch|] == batch;
    StampedAt(s, first, picks);
    PlacedAreSupported(picks, batch, resource);
    EarliestFinishRatio(m, resource, avail, s.clock(first), picks);
  }

  lemma AllSupported(m: Machine, resource: nat, avail: seq<int>, now: int, batch: seq<Task>)
    requires Identical(m, resource, avail, now) && m.Pes() > 0
    requires forall i :: 0 <= i < |batch| ==> resource in batch[i].supported
    ensures m.Runnable(batch)
  {
    forall t | t in batch ensures m.RunnableTask(t) {
      assert m.Supports(t, 0);
    }
  }

  /** HEFT_RT under the same conditions, with tasks that support only that type: at most 4/3 - 1/(3m)
      times the makespan of any placement of the batch. */
  method PlanHeftRt(s: Scheduler, resource: nat) returns (count: nat)
    requires s.Valid() && s.machine.policy == HeftRt && s.queueing && StandsStill(s.clock, s.ticks)
    requires Identical(s.machine, resource, s.avail, s.clock(s.ticks)) && resource < RESOURCE_TYPES
    requires forall i :: 0 <= i < |s.ready| ==> s.ready[i].supported == {resource}
    modifies s`ready, s`todo, s`avail, s`ticks
    ensures s.Valid() && s.ready == [] && count == old(|s.ready|)
    ensures WithinRatio(s.machine, resource, old(s.ready), s.avail, s.clock(old(s.ticks)), 4 * s.machine.Pes() - 1,
                        3 * s.machine.Pes())
  {
    ghost var m, batch, avail, first := s.machine, s.ready, s.avail, s.ticks;
    ghost var picks, sorted;
    AllSupported(m, resource, avail, s.clock(first), batch);
    count, picks, sorted := s.ScheduleHeftRt();
    StampedAt(s, first, picks);
    PlacedAreSupported(picks, batch, resource);
    forall i | 0 <= i < |sorted| ensures sorted[i].supported == {resource} {
      assert sorted[i] in multiset(batch);
    }
    RankedIsDecreasing(m, resource, sorted);
    LongestFirstRatio(m, resource, avail, s.clock(first), picks);
    RatioForAnyOrder(m, resource, sorted, batch, s.avail, s.clock(first), 4 * m.Pes() - 1, 3 * m.Pes());
    assert |multiset(sorted)| == |multiset(batch)|;
  }
}
