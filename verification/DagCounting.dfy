/** Counts over tasks and PEs: completed_task_count and retirement, free_resource_count, and the
    measure that bounds every run. */
module DagCounting {
  import opened Basics
  import opened Bits
  import opened DagGraph
  import opened DagSystem
  import opened DagLocation

  // ---- completed_task_count and retirement ----

  /** Frames finished by the tasks of application a among the first n. */
  function FramesDone(g: Graph, iter: seq<nat>, a: nat, n: nat): nat
    requires n <= g.Size() == |iter|
  {
    if n == 0 then 0 else FramesDone(g, iter, a, n - 1) + if g.owner[n - 1] == a then iter[n - 1] else 0
  }

  ghost predicate CountInv(g: Graph, s: State)
    requires |s.iter| == g.Size() && |s.count| == |g.apps|
  {
    forall a :: 0 <= a < |g.apps| ==> s.count[a] == FramesDone(g, s.iter, a, g.Size())
  }

  /** Applications enter completed_apps at most once, exactly when their count reaches the total. */
  ghost predicate RetireInv(g: Graph, s: State)
    requires |s.count| == |g.apps|
  {
    && (forall a: nat :: a < |g.apps| ==> (a in s.retired <==> s.count[a] == Total(g, a) && s.count[a] > 0))
    && (forall a: nat :: multiset(s.retired)[a] <= 1)
  }

  lemma {:induction false} FramesDoneStep(g: Graph, iter: seq<nat>, a: nat, n: nat, t: nat)
    requires n <= g.Size() == |iter| && t < g.Size()
    ensures FramesDone(g, iter[t := iter[t] + 1], a, n)
         == FramesDone(g, iter, a, n) + if t < n && g.owner[t] == a then 1 else 0
  {
    if n != 0 {
      FramesDoneStep(g, iter, a, n - 1, t);
    }
  }

  /** At most `limit` frames per task; the total is reached exactly when every task is at the limit. */
  lemma {:induction false} TotalReached(g: Graph, iter: seq<nat>, a: nat, n: nat, limit: nat)
    requires n <= g.Size() == |iter|
    requires forall t :: 0 <= t < n && g.owner[t] == a ==> iter[t] <= limit
    ensures FramesDone(g, iter, a, n) <= TaskCount(g, a, n) * limit
    ensures FramesDone(g, iter, a, n) == TaskCount(g, a, n) * limit
            <==> forall t :: 0 <= t < n && g.owner[t] == a ==> iter[t] == limit
  {
    if n != 0 {
      TotalReached(g, iter, a, n - 1, limit);
      Distribute(TaskCount(g, a, n - 1), limit);
    }
  }

  ghost predicate WithinTarget(g: Graph, iter: seq<nat>, a: nat)
    requires |iter| == g.Size() && a < |g.apps|
  {
    forall t :: 0 <= t < g.Size() && g.owner[t] == a ==> iter[t] <= g.Target(a)
  }

  lemma CompletedKeepsCounts(g: Graph, s: State, t: nat)
    requires g.Shaped() && t < g.Size() && |s.iter| == |s.queued| == g.Size() && |s.count| == |g.apps|
    requires CountInv(g, s) && RetireInv(g, s)
    requires g.Target(g.owner[t]) >= 1 ==> WithinTarget(g, s.iter, g.owner[t]) && s.iter[t] < g.Target(g.owner[t])
    ensures CountInv(g, Completed(g, s, t)) && RetireInv(g, Completed(g, s, t))
  {
    var a := g.owner[t];
    var s2 := Wake(g, Counted(g, s, t), t);
    CountedKeepsCounts(g, s, s2, t);
    if g.Target(a) >= 1 {
      TotalReached(g, s.iter, a, g.Size(), g.Target(a));
    }
    RetireKeepsCounts(g, s, s2, a);
  }

  lemma CountedKeepsCounts(g: Graph, s: State, s': State, t: nat)
    requires g.Shaped() && t < g.Size() == |s.iter| && |s.count| == |g.apps| && CountInv(g, s)
    requires s'.iter == s.iter[t := s.iter[t] + 1] && s'.count == s.count[g.owner[t] := s.count[g.owner[t]] + 1]
    ensures CountInv(g, s')
  {
    forall b | 0 <= b < |g.apps|
      ensures s'.count[b] == FramesDone(g, s'.iter, b, g.Size())
    {
      FramesDoneStep(g, s.iter, b, g.Size(), t);
    }
  }

  lemma RetireKeepsCounts(g: Graph, s: State, s2: State, a: nat)
    requires a < |s.count| == |g.apps| && RetireInv(g, s) && s2.retired == s.retired
    requires s2.count == s.count[a := s.count[a] + 1]
    requires s.count[a] == Total(g, a) ==> s.count[a] == 0
    ensures RetireInv(g, Retire(g, s2, a))
  {
    assert a !in s.retired;
    assert a !in multiset(s.retired);
    var s' := Retire(g, s2, a);
    if s2.count[a] == Total(g, a) {
      assert multiset(s'.retired) == multiset(s.retired) + multiset{a};
    }
  }

  // ---- free_resource_count ----

  function Load(s: State, pe: nat): nat
    requires pe < |s.todo| == |s.slot| == |s.done|
  {
    |s.todo[pe]| + |SlotQueue(s.slot[pe])| + |s.done[pe]|
  }

  /** PEs among the first n that hold no task at all. */
  function IdleCount(s: State, n: nat): nat
    requires n <= |s.todo| == |s.slot| == |s.done|
  {
    if n == 0 then 0 else IdleCount(s, n - 1) + if Load(s, n - 1) == 0 then 1 else 0
  }

  function Sizes(queues: seq<seq<nat>>): nat {
    if queues == [] then 0 else |queues[0]| + Sizes(queues[1..])
  }

  /** Non-queued mode: a PE holds at most one task, and the counter is the number of PEs holding
      none -- if the policy decrements it; otherwise it only grows, by one per drained task. */
  ghost predicate FreeInv(c: Config, s: State)
    requires |s.todo| == |s.slot| == |s.done| == |s.drained| == c.pes
  {
    && (c.queueing ==> s.free == c.pes)
    && (!c.queueing ==> forall pe :: 0 <= pe < c.pes ==> Load(s, pe) <= 1)
    && (!c.queueing && c.counts ==> s.free == IdleCount(s, c.pes))
    && (!c.queueing && !c.counts ==> s.free == c.pes + Sizes(s.drained))
  }

  lemma {:induction false} IdleCountChange(s: State, s': State, n: nat, pe: nat)
    requires n <= |s.todo| == |s.slot| == |s.done| == |s'.todo| == |s'.slot| == |s'.done| && pe < |s.todo|
    requires forall q :: 0 <= q < |s.todo| && q != pe ==> Load(s', q) == Load(s, q)
    ensures IdleCount(s', n) + (if pe < n && Load(s, pe) == 0 then 1 else 0)
         == IdleCount(s, n) + (if pe < n && Load(s', pe) == 0 then 1 else 0)
  {
    if n != 0 {
      IdleCountChange(s, s', n - 1, pe);
    }
  }

  lemma {:induction false} SizesUpdate(queues: seq<seq<nat>>, i: nat, q: seq<nat>)
    requires i < |queues|
    ensures Sizes(queues[i := q]) + |queues[i]| == Sizes(queues) + |q|
  {
    if i == 0 {
      assert queues[0 := q][1..] == queues[1..];
    } else {
      SizesUpdate(queues[1..], i - 1, q);
      assert queues[i := q][1..] == queues[1..][i - 1 := q] && queues[i := q][0] == queues[0];
    }
  }

  lemma {:induction false} IdleCountSame(s: State, s': State, n: nat)
    requires n <= |s.todo| == |s.slot| == |s.done| == |s'.todo| == |s'.slot| == |s'.done|
    requires forall q :: 0 <= q < |s.todo| ==> Load(s', q) == Load(s, q)
    ensures IdleCount(s', n) == IdleCount(s, n)
  {
    if n != 0 {
      IdleCountSame(s, s', n - 1);
    }
  }

  lemma StepKeepsFree(g: Graph, c: Config, s: State, step: Step)
    requires g.WellFormed() && c.For(g) && s.Fits(g, c) && Enabled(g, c, s, step) && FreeInv(c, s)
    ensures Apply(g, c, s, step).Fits(g, c) && FreeInv(c, Apply(g, c, s, step))
  {
    StepFits(g, c, s, step);
    var s' := Apply(g, c, s, step);
    match step
    case Assign(i, pe) => AssignKeepsFree(c, s, s', s.ready[i], pe);
    case Drain(pe) => DrainKeepsFree(g, c, s, pe);
    case _ => SameLoadsKeepFree(c, s, s');
  }

  lemma SameLoadsKeepFree(c: Config, s: State, s': State)
    requires |s.todo| == |s.slot| == |s.done| == |s.drained| == c.pes && FreeInv(c, s)
    requires |s'.todo| == |s'.slot| == |s'.done| == c.pes && s'.drained == s.drained && s'.free == s.free
    requires forall pe :: 0 <= pe < c.pes ==> Load(s', pe) == Load(s, pe)
    ensures FreeInv(c, s')
  {
    IdleCountSame(s, s', c.pes);
  }

  lemma AssignKeepsFree(c: Config, s: State, s': State, t: nat, pe: nat)
    requires |s.todo| == |s.slot| == |s.done| == |s.drained| == c.pes && FreeInv(c, s)
    requires pe < c.pes && (c.queueing || s.Idle(pe))
    requires s'.todo == s.todo[pe := s.todo[pe] + [t]] && s'.slot == s.slot && s'.done == s.done
    requires s'.drained == s.drained && s'.free == s.free - if c.counts && !c.queueing then 1 else 0
    ensures FreeInv(c, s')
  {
    IdleCountChange(s, s', c.pes, pe);
  }

  lemma DrainKeepsFree(g: Graph, c: Config, s: State, pe: nat)
    requires g.WellFormed() && c.For(g) && s.Fits(g, c) && Enabled(g, c, s, Drain(pe)) && FreeInv(c, s)
    requires Apply(g, c, s, Drain(pe)).Fits(g, c)
    ensures FreeInv(c, Apply(g, c, s, Drain(pe)))
  {
    CompletedKeeps(g, Popped(c, s, pe), s.done[pe][0]);
    PopKeepsFree(c, s, Popped(c, s, pe), pe);
    IdleCountSame(Popped(c, s, pe), Apply(g, c, s, Drain(pe)), c.pes);
  }

  lemma PopKeepsFree(c: Config, s: State, s': State, pe: nat)
    requires |s.todo| == |s.slot| == |s.done| == |s.drained| == c.pes && pe < c.pes && s.done[pe] != []
    requires s' == Popped(c, s, pe) && FreeInv(c, s)
    ensures FreeInv(c, s')
  {
    SizesUpdate(s.drained, pe, s.drained[pe] + [s.done[pe][0]]);
    IdleCountChange(s, s', c.pes, pe);
  }

  // ---- the measure ----

  function Unarrived(arrived: seq<bool>, n: nat): nat
    requires n <= |arrived|
  {
    if n == 0 then 0 else Unarrived(arrived, n - 1) + if arrived[n - 1] then 0 else 1
  }

  /** Frames still allowed to the first n tasks. */
  function Remaining(g: Graph, iter: seq<nat>, n: nat): int
    requires g.Shaped() && n <= g.Size() == |iter|
  {
    if n == 0 then 0 else Remaining(g, iter, n - 1) + g.Cap(n - 1) - iter[n - 1]
  }

  function Flagged(queued: seq<bool>, n: nat): nat
    requires n <= |queued|
  {
    if n == 0 then 0 else Flagged(queued, n - 1) + if queued[n - 1] then 1 else 0
  }

  /** Stages already behind the tasks in flight: 1 when ready, up to 4 when completed. */
  function Progress(s: State): nat {
    |s.ready| + 2 * Sizes(s.todo) + 3 * Sizes(Slots(s.slot)) + 4 * Sizes(s.done)
  }

  function Measure(g: Graph, s: State): int
    requires g.Shaped() && |s.iter| == g.Size()
  {
    Unarrived(s.arrived, |s.arrived|) + 5 * Remaining(g, s.iter, g.Size()) - Progress(s)
  }

  lemma {:induction false} UnarrivedStep(arrived: seq<bool>, n: nat, a: nat)
    requires n <= |arrived| && a < |arrived| && !arrived[a]
    ensures Unarrived(arrived[a := true], n) == Unarrived(arrived, n) - if a < n then 1 else 0
  {
    if n != 0 {
      UnarrivedStep(arrived, n - 1, a);
    }
  }

  lemma {:induction false} RemainingStep(g: Graph, iter: seq<nat>, n: nat, t: nat)
    requires g.Shaped() && n <= g.Size() == |iter| && t < g.Size()
    ensures Remaining(g, iter[t := iter[t] + 1], n) == Remaining(g, iter, n) - if t < n then 1 else 0
  {
    if n != 0 {
      RemainingStep(g, iter, n - 1, t);
    }
  }

  lemma MoveLowersMeasure(g: Graph, c: Config, s: State, step: Step)
    requires g.WellFormed() && c.For(g) && s.Fits(g, c) && Enabled(g, c, s, step)
    requires step.Assign? || step.Take? || step.Finish?
    ensures Measure(g, Apply(g, c, s, step)) == Measure(g, s) - 1
  {
    match step
    case Assign(i, pe) =>
      SizesUpdate(s.todo, pe, s.todo[pe] + [s.ready[i]]);
    case Take(pe) =>
      SizesUpdate(s.todo, pe, s.todo[pe][1..]);
      SlotsUpdate(s.slot, pe, Some(s.todo[pe][0]));
      SizesUpdate(Slots(s.slot), pe, [s.todo[pe][0]]);
    case Finish(pe) =>
      SlotsUpdate(s.slot, pe, None);
      SizesUpdate(Slots(s.slot), pe, []);
      SizesUpdate(s.done, pe, s.done[pe] + [s.slot[pe].value]);
  }

  lemma StepLowersMeasure(g: Graph, c: Config, s: State, step: Step)
    requires g.WellFormed() && c.For(g) && s.Fits(g, c) && Enabled(g, c, s, step)
    ensures Apply(g, c, s, step).Fits(g, c) && Measure(g, Apply(g, c, s, step)) < Measure(g, s)
  {
    StepFits(g, c, s, step);
    match step
    case Arrive(a) => UnarrivedStep(s.arrived, |s.arrived|, a);
    case Queue(t) =>
    case Drain(pe) =>
      var t := s.done[pe][0];
      var s1 := Popped(c, s, pe);
      SizesUpdate(s.done, pe, s.done[pe][1..]);
      RemainingStep(g, s.iter, g.Size(), t);
      CompletedKeeps(g, s1, t);
      CompletedGrowsReady(g, s1, t);
    case _ => MoveLowersMeasure(g, c, s, step);
  }

  lemma CompletedGrowsReady(g: Graph, s: State, t: nat)
    requires g.Shaped() && t < g.Size() && |s.iter| == |s.queued| == g.Size() && |s.count| == |g.apps|
    ensures |Completed(g, s, t).ready| >= |s.ready| && Completed(g, s, t).iter == s.iter[t := s.iter[t] + 1]
  {
  }

  lemma {:induction false} BagSize(queues: seq<seq<nat>>)
    ensures |Bag(queues)| == Sizes(queues)
  {
    if queues != [] {
      BagSize(queues[1..]);
    }
  }

  /** A bag holding each flagged task once has as many entries as there are flags. */
  lemma {:induction false} FlaggedSize(bag: multiset<nat>, queued: seq<bool>, n: nat)
    requires n <= |queued|
    requires forall t: nat :: bag[t] == if t < n && queued[t] then 1 else 0
    ensures |bag| == Flagged(queued, n)
  {
    if n == 0 {
      assert forall t: nat :: t !in bag;
      assert bag == multiset{};
    } else {
      var last: nat := n - 1;
      var rest := bag[last := 0];
      assert |rest| == |bag| - bag[last];
      FlaggedSize(rest, queued, n - 1);
    }
  }

  lemma {:induction false} FlaggedWithinRemaining(g: Graph, iter: seq<nat>, queued: seq<bool>, n: nat)
    requires g.Shaped() && n <= g.Size() == |iter| == |queued|
    requires forall t :: 0 <= t < n ==> iter[t] + (if queued[t] then 1 else 0) <= g.Cap(t)
    ensures Flagged(queued, n) <= Remaining(g, iter, n)
  {
    if n != 0 {
      FlaggedWithinRemaining(g, iter, queued, n - 1);
    }
  }

  lemma MeasureNonnegative(g: Graph, s: State)
    requires g.Shaped() && |s.iter| == |s.queued| == g.Size() && SingleLocation(g, s)
    requires forall t :: 0 <= t < g.Size() ==> s.iter[t] + (if s.queued[t] then 1 else 0) <= g.Cap(t)
    ensures Measure(g, s) >= 0
  {
    FlaggedSize(Everywhere(s), s.queued, g.Size());
    FlaggedWithinRemaining(g, s.iter, s.queued, g.Size());
    BagSize(s.todo);
    BagSize(Slots(s.slot));
    BagSize(s.done);
    assert |Everywhere(s)| == |s.ready| + Sizes(s.todo) + Sizes(Slots(s.slot)) + Sizes(s.done);
  }
}
