/** The invariant of the DAG runtime: it holds at the start, every step of the daemon and of the
    workers keeps it, and so it holds after every run, whatever the interleaving. */
module DagRuns {
  import opened Basics
  import opened Bits
  import opened DagGraph
  import opened DagSystem
  import opened DagLocation
  import opened DagSafety
  import opened DagCounting

  ghost predicate Inv(g: Graph, c: Config, s: State)
    requires g.Shaped()
  {
    && s.Fits(g, c)
    && SingleLocation(g, s) && Fifo(c, s)
    && CounterInv(g, s.iter, s.queued, s.arrived)
    && CountInv(g, s) && RetireInv(g, s) && FreeInv(c, s)
  }

  lemma {:induction false} InitCounts(g: Graph, iter: seq<nat>, a: nat, n: nat)
    requires n <= g.Size() == |iter| && forall t :: 0 <= t < |iter| ==> iter[t] == 0
    ensures FramesDone(g, iter, a, n) == 0
  {
    if n != 0 {
      InitCounts(g, iter, a, n - 1);
    }
  }

  lemma {:induction false} InitIdle(s: State, n: nat)
    requires n <= |s.todo| == |s.slot| == |s.done| && forall pe :: 0 <= pe < |s.todo| ==> Load(s, pe) == 0
    ensures IdleCount(s, n) == n
  {
    if n != 0 {
      InitIdle(s, n - 1);
    }
  }

  lemma {:induction false} EmptySizes(queues: seq<seq<nat>>)
    requires forall k :: 0 <= k < |queues| ==> queues[k] == []
    ensures Sizes(queues) == 0
  {
    if queues != [] {
      EmptySizes(queues[1..]);
    }
  }

  lemma InitCounters(g: Graph, iter: seq<nat>, queued: seq<bool>, arrived: seq<bool>)
    requires g.WellFormed() && |iter| == |queued| == g.Size() && |arrived| == |g.apps|
    requires forall t :: 0 <= t < |iter| ==> iter[t] == 0 && !queued[t]
    requires forall a :: 0 <= a < |arrived| ==> !arrived[a]
    ensures CounterInv(g, iter, queued, arrived)
  {
  }

  lemma InitFree(c: Config, s: State)
    requires |s.todo| == |s.slot| == |s.done| == |s.drained| == c.pes == s.free
    requires forall pe :: 0 <= pe < c.pes ==> Load(s, pe) == 0 && s.drained[pe] == []
    ensures FreeInv(c, s)
  {
    InitIdle(s, c.pes);
    EmptySizes(s.drained);
  }

  lemma InitRetired(g: Graph, s: State)
    requires |s.iter| == g.Size() && |s.count| == |g.apps| && s.retired == []
    requires forall t :: 0 <= t < |s.iter| ==> s.iter[t] == 0
    requires forall a :: 0 <= a < |s.count| ==> s.count[a] == 0
    ensures CountInv(g, s) && RetireInv(g, s)
  {
    forall a | 0 <= a < |g.apps|
      ensures s.count[a] == FramesDone(g, s.iter, a, g.Size())
    {
      InitCounts(g, s.iter, a, g.Size());
    }
  }

  lemma InitInv(g: Graph, c: Config)
    requires g.WellFormed() && c.For(g)
    ensures Inv(g, c, Init(g, c))
  {
    InitFits(g, c);
    InitLocated(g, c);
    InitCountsHold(g, c, Init(g, c));
  }

  lemma InitFits(g: Graph, c: Config)
    ensures Init(g, c).Fits(g, c)
  {
  }

  lemma InitCountsHold(g: Graph, c: Config, s: State)
    requires g.WellFormed() && s == Init(g, c) && s.Fits(g, c)
    ensures CounterInv(g, s.iter, s.queued, s.arrived) && CountInv(g, s) && RetireInv(g, s) && FreeInv(c, s)
  {
    InitFree(c, s);
    InitCounters(g, s.iter, s.queued, s.arrived);
    InitRetired(g, s);
  }

  // ---- one step ----

  lemma ArriveKeepsInv(g: Graph, c: Config, s: State, a: nat)
    requires g.WellFormed() && c.For(g) && Inv(g, c, s) && a < |g.apps| && !s.arrived[a]
    ensures var s' := Apply(g, c, s, Arrive(a));
            |s'.queued| == g.Size() && |s'.arrived| == |g.apps| && s'.iter == s.iter
            && CounterInv(g, s'.iter, s'.queued, s'.arrived)
  {
    var s' := Apply(g, c, s, Arrive(a));
    forall t | 0 <= t < g.Size()
      ensures s'.queued[t] == (s.queued[t] || (g.owner[t] == a && g.Head(t)))
    {
      if g.owner[t] == a {
        ArrivalPushesHeads(g, s.iter, t);
      }
    }
    ArriveKeepsCounters(g, s.iter, s.queued, s.arrived, s'.queued, a);
  }

  lemma QueueKeepsInv(g: Graph, s: State, t: nat)
    requires g.WellFormed() && |s.iter| == |s.queued| == g.Size() && |s.arrived| == |g.apps|
    requires CounterInv(g, s.iter, s.queued, s.arrived)
    requires t < g.Size() && s.arrived[g.owner[t]] && g.ModeOf(t) != NonStreaming && !s.queued[t]
    requires s.iter[t] < g.apps[g.owner[t]].frames && PredOk(g, s.iter, t) && SuccOk(g, s.iter, t)
    ensures CounterInv(g, s.iter, Push(s, [t]).queued, s.arrived)
  {
    QueueKeepsCounters(g, s.iter, s.queued, s.arrived, t);
    assert Push(s, [t]).queued == s.queued[t := true];
  }

  lemma DrainedIsQueued(g: Graph, c: Config, s: State, pe: nat)
    requires g.Shaped() && s.Fits(g, c) && SingleLocation(g, s) && pe < c.pes && s.done[pe] != []
    ensures s.done[pe][0] < g.Size() && s.queued[s.done[pe][0]]
  {
    var t := s.done[pe][0];
    PopEverywhere(s, s.(done := s.done[pe := s.done[pe][1..]]), pe);
    assert (Everywhere(s.(done := s.done[pe := s.done[pe][1..]])) + multiset{t})[t] >= 1;
  }

  lemma DrainKeepsInv(g: Graph, c: Config, s: State, pe: nat)
    requires g.WellFormed() && s.Fits(g, c) && pe < c.pes && s.done[pe] != [] && SingleLocation(g, s)
    requires CounterInv(g, s.iter, s.queued, s.arrived) && CountInv(g, s) && RetireInv(g, s)
    ensures s.done[pe][0] < g.Size()
    ensures var s' := Completed(g, Popped(c, s, pe), s.done[pe][0]);
            |s'.queued| == |s'.iter| == g.Size() && |s'.arrived| == |g.apps| == |s'.count|
            && CounterInv(g, s'.iter, s'.queued, s'.arrived) && CountInv(g, s') && RetireInv(g, s')
  {
    DrainedIsQueued(g, c, s, pe);
    var s1, t := Popped(c, s, pe), s.done[pe][0];
    assert s1.iter == s.iter && s1.queued == s.queued && s1.arrived == s.arrived;
    CountsUntouched(g, s, s1);
    CompletedKeepsAll(g, s1, t);
  }

  lemma CompletedKeepsAll(g: Graph, s: State, t: nat)
    requires g.WellFormed() && t < g.Size() && |s.iter| == |s.queued| == g.Size()
    requires |s.count| == |s.arrived| == |g.apps|
    requires CounterInv(g, s.iter, s.queued, s.arrived) && s.queued[t] && CountInv(g, s) && RetireInv(g, s)
    ensures var s' := Completed(g, s, t);
            |s'.queued| == |s'.iter| == g.Size() && |s'.arrived| == |g.apps| == |s'.count|
            && CounterInv(g, s'.iter, s'.queued, s'.arrived) && CountInv(g, s') && RetireInv(g, s')
  {
    CompletedKeepsCounters(g, s, t);
    LimitsWithinTarget(g, s, g.owner[t]);
    CompletedKeepsCounts(g, s, t);
  }

  lemma CompletedKeepsCounters(g: Graph, s: State, t: nat)
    requires g.WellFormed() && t < g.Size() && |s.iter| == |s.queued| == g.Size()
    requires |s.count| == |s.arrived| == |g.apps|
    requires CounterInv(g, s.iter, s.queued, s.arrived) && s.queued[t]
    ensures var s' := Completed(g, s, t);
            |s'.queued| == |s'.iter| == g.Size() && |s'.arrived| == |g.apps| == |s'.count|
            && CounterInv(g, s'.iter, s'.queued, s'.arrived)
  {
    var queued' := CompletedFields(g, s, t);
    DrainedCounters(g, s, Completed(g, s, t), t, queued');
  }

  lemma DrainedCounters(g: Graph, s: State, s': State, t: nat, queued': seq<bool>)
    requires g.WellFormed() && |s.iter| == |s.queued| == |queued'| == g.Size() && |s.arrived| == |g.apps|
    requires CounterInv(g, s.iter, s.queued, s.arrived) && t < g.Size() && s.queued[t]
    requires WokenWith(g, s.iter[t := s.iter[t] + 1], s.queued[t := false], queued', t)
    requires s'.iter == s.iter[t := s.iter[t] + 1] && s'.queued == queued' && s'.arrived == s.arrived
    ensures CounterInv(g, s'.iter, s'.queued, s'.arrived)
  {
    DrainKeepsCounters(g, s.iter, s.queued, s.arrived, t, queued');
  }

  /** Completion in terms of the fields the counters are about. */
  lemma CompletedFields(g: Graph, s: State, t: nat) returns (queued': seq<bool>)
    requires g.WellFormed() && t < g.Size() && |s.iter| == |s.queued| == g.Size() && |s.count| == |g.apps|
    ensures var s' := Completed(g, s, t);
            s'.iter == s.iter[t := s.iter[t] + 1] && s'.queued == queued' && s'.arrived == s.arrived
            && |s'.count| == |g.apps|
    ensures |queued'| == g.Size() && WokenWith(g, s.iter[t := s.iter[t] + 1], s.queued[t := false], queued', t)
  {
    queued' := Wake(g, Counted(g, s, t), t).queued;
    WakeMarks(g, Counted(g, s, t), t);
  }

  lemma WakeMarks(g: Graph, s: State, t: nat)
    requires g.WellFormed() && |s.iter| == |s.queued| == g.Size() && t < g.Size()
    ensures |Wake(g, s, t).queued| == g.Size() && WokenWith(g, s.iter, s.queued, Wake(g, s, t).queued, t)
  {
    if g.ModeOf(t) == NonStreaming {
      WokenExactly(g, s.iter, s.queued, g.Succ(t));
    }
  }

  lemma LimitsWithinTarget(g: Graph, s: State, a: nat)
    requires g.Shaped() && |s.iter| == |s.queued| == g.Size() && |s.arrived| == |g.apps| && a < |g.apps|
    requires LimitInv(g, s.iter, s.queued, s.arrived)
    ensures g.Target(a) >= 1 ==> WithinTarget(g, s.iter, a)
    ensures g.Target(a) >= 1 ==>
              forall t :: 0 <= t < g.Size() && g.owner[t] == a && s.queued[t] ==> s.iter[t] < g.Target(a)
  {
  }

  lemma CountsUntouched(g: Graph, s: State, s': State)
    requires |s.iter| == g.Size() && |s.count| == |g.apps| && CountInv(g, s) && RetireInv(g, s)
    requires s'.iter == s.iter && s'.count == s.count && s'.retired == s.retired
    ensures CountInv(g, s') && RetireInv(g, s')
  {
  }

  lemma StepKeepsInv(g: Graph, c: Config, s: State, step: Step)
    requires g.WellFormed() && c.For(g) && Inv(g, c, s) && Enabled(g, c, s, step)
    ensures Inv(g, c, Apply(g, c, s, step))
  {
    StepKeepsLocation(g, c, s, step);
    StepKeepsFifo(g, c, s, step);
    StepKeepsFree(g, c, s, step);
    StepKeepsCounts(g, c, s, step);
  }

  lemma StepKeepsCounts(g: Graph, c: Config, s: State, step: Step)
    requires g.WellFormed() && c.For(g) && Inv(g, c, s) && Enabled(g, c, s, step)
    requires Apply(g, c, s, step).Fits(g, c)
    ensures var s' := Apply(g, c, s, step);
            CounterInv(g, s'.iter, s'.queued, s'.arrived) && CountInv(g, s') && RetireInv(g, s')
  {
    var s' := Apply(g, c, s, step);
    match step
    case Arrive(a) =>
      ArriveKeepsInv(g, c, s, a);
      CountsUntouched(g, s, s');
    case Queue(t) =>
      QueueKeepsInv(g, s, t);
      CountsUntouched(g, s, s');
    case Drain(pe) =>
      DrainKeepsInv(g, c, s, pe);
    case _ =>
      CountsUntouched(g, s, s');
      assert s'.queued == s.queued && s'.arrived == s.arrived;
  }

  // ---- runs ----

  /** steps lead from s to s', each enabled when taken. */
  ghost predicate Runs(g: Graph, c: Config, s: State, steps: seq<Step>, s': State)
    requires g.WellFormed() && c.For(g)
    decreases |steps|
  {
    if steps == [] then s' == s
    else s.Fits(g, c) && Enabled(g, c, s, steps[0]) && Runs(g, c, Apply(g, c, s, steps[0]), steps[1..], s')
  }

  /** Safety and termination: every run keeps the invariant and is no longer than the measure it
      uses up. */
  lemma {:induction false} RunKeepsInv(g: Graph, c: Config, s: State, steps: seq<Step>, s': State)
    requires g.WellFormed() && c.For(g) && Inv(g, c, s) && Runs(g, c, s, steps, s')
    ensures Inv(g, c, s') && 0 <= Measure(g, s') && |steps| + Measure(g, s') <= Measure(g, s)
    decreases |steps|
  {
    if steps == [] {
      MeasureNonnegative(g, s);
    } else {
      StepKeepsInv(g, c, s, steps[0]);
      StepLowersMeasure(g, c, s, steps[0]);
      RunKeepsInv(g, c, Apply(g, c, s, steps[0]), steps[1..], s');
    }
  }

  lemma Reachable(g: Graph, c: Config, steps: seq<Step>, s: State)
    requires g.WellFormed() && c.For(g) && Runs(g, c, Init(g, c), steps, s)
    ensures Inv(g, c, s) && |steps| <= Measure(g, Init(g, c))
  {
    InitInv(g, c);
    RunKeepsInv(g, c, Init(g, c), steps, s);
  }
}
