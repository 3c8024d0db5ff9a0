/** Safety over all runs, stated about reachable states. */
module DagTheorems {
  import opened Basics
  import opened Bits
  import opened DagGraph
  import opened DagSystem
  import opened DagLocation
  import opened DagSafety
  import opened DagCounting
  import opened DagRuns

  /** Ready, waiting on a PE, running, or completed and not yet drained. */
  ghost predicate InFlight(s: State, t: nat) { t in Everywhere(s) }

  ghost predicate ReachableState(g: Graph, c: Config, s: State)
    requires g.WellFormed() && c.For(g)
  {
    exists steps :: Runs(g, c, Init(g, c), steps, s)
  }

  lemma ReachableInv(g: Graph, c: Config, s: State)
    requires g.WellFormed() && c.For(g) && ReachableState(g, c, s)
    ensures Inv(g, c, s)
    ensures forall t: nat :: InFlight(s, t) <==> t < g.Size() && s.queued[t]
  {
    var steps :| Runs(g, c, Init(g, c), steps, s);
    Reachable(g, c, steps, s);
    forall t: nat
      ensures InFlight(s, t) <==> t < g.Size() && s.queued[t]
    {
      assert InFlight(s, t) <==> Everywhere(s)[t] > 0;
    }
  }

  /** Every task is in at most one place at a time, exactly once there; the in_ready_queue flag says
      whether it is; and each PE runs its tasks in the order they were handed to it. */
  lemma SingleLocationFifo(g: Graph, c: Config, s: State)
    requires g.WellFormed() && c.For(g) && ReachableState(g, c, s)
    ensures s.Fits(g, c)
    ensures forall t: nat :: Everywhere(s)[t] == if t < g.Size() && s.queued[t] then 1 else 0
    ensures forall pe :: 0 <= pe < c.pes ==>
              s.handed[pe] == s.drained[pe] + s.done[pe] + SlotQueue(s.slot[pe]) + s.todo[pe]
  {
    ReachableInv(g, c, s);
  }

  lemma PlainEdge(g: Graph, iter: seq<nat>, queued: seq<bool>, p: nat, t: nat)
    requires g.WellFormed() && |iter| == |queued| == g.Size() && EdgeInv(g, iter, queued)
    requires t < g.Size() && p < g.Size() && p in g.preds[t]
    ensures EdgeOk(g.ModeOf(t), g.Head(t), iter[p], iter[t], queued[p], queued[t])
    ensures !g.Head(t)
  {
    assert p in g.Pred(t);
    LinksMirror(g, p, t);
    assert t in g.succs[p];
  }

  /** Single buffering: a producer is at most one frame ahead, and never in flight together with its
      consumer, so the one buffer of the edge is never written while it is read. */
  lemma SingleBufferDiscipline(g: Graph, c: Config, s: State, p: nat, t: nat)
    requires g.WellFormed() && c.For(g) && ReachableState(g, c, s)
    requires t < g.Size() && p < g.Size() && p in g.preds[t] && g.ModeOf(t) == SingleBuffer
    ensures |s.iter| == g.Size() && s.iter[t] <= s.iter[p] <= s.iter[t] + 1
    ensures !(InFlight(s, p) && InFlight(s, t))
  {
    ReachableInv(g, c, s);
    PlainEdge(g, s.iter, s.queued, p, t);
  }

  /** Double buffering: a producer is at most two frames ahead; when both ends are in flight it is
      exactly one ahead, so they work on consecutive frames, one in each half of the buffer. */
  lemma DoubleBufferDiscipline(g: Graph, c: Config, s: State, p: nat, t: nat)
    requires g.WellFormed() && c.For(g) && ReachableState(g, c, s)
    requires t < g.Size() && p < g.Size() && p in g.preds[t] && g.ModeOf(t) == DoubleBuffer
    ensures |s.iter| == g.Size() && s.iter[t] <= s.iter[p] <= s.iter[t] + 2
    ensures InFlight(s, p) && InFlight(s, t) ==> s.iter[p] == s.iter[t] + 1
  {
    ReachableInv(g, c, s);
    PlainEdge(g, s.iter, s.queued, p, t);
  }

  /** Non-streaming: waking successors one by one refines a full scan. A task is in flight or has
      run exactly when all its predecessors have run, and no task runs twice. */
  lemma WakeupRefinesScan(g: Graph, c: Config, s: State, t: nat)
    requires g.WellFormed() && c.For(g) && ReachableState(g, c, s)
    requires t < g.Size() && g.ModeOf(t) == NonStreaming
    ensures s.Fits(g, c)
    ensures s.arrived[g.owner[t]] ==>
              (InFlight(s, t) || s.iter[t] == 1 <==> forall k :: 0 <= k < |g.preds[t]| ==> s.iter[g.preds[t][k]] == 1)
    ensures s.iter[t] <= 1 && (InFlight(s, t) ==> s.iter[t] == 0)
  {
    ReachableInv(g, c, s);
    assert g.Cap(t) == 1;
    forall k | 0 <= k < |g.preds[t]|
      ensures s.iter[g.Pred(t)[k]] <= 1
    {
      InPred(g, t, k);
      LinksMirror(g, g.Pred(t)[k], t);
      assert g.Cap(g.Pred(t)[k]) == 1;
    }
  }

  // ---- retirement and the free counter ----

  ghost predicate Finished(g: Graph, s: State, a: nat)
    requires |s.iter| == g.Size() && a < |g.apps|
  {
    forall t :: 0 <= t < g.Size() && g.owner[t] == a ==> s.iter[t] == g.Target(a)
  }

  /** An application is in completed_apps exactly when each of its tasks has done all its frames, at
      most once, and then none of its tasks is in any queue or running: it can be freed. */
  lemma RetiredExactlyWhenFinished(g: Graph, c: Config, s: State, a: nat)
    requires g.WellFormed() && c.For(g) && ReachableState(g, c, s) && a < |g.apps|
    ensures s.Fits(g, c)
    ensures a in s.retired <==> Finished(g, s, a) && g.Target(a) >= 1 && TaskCount(g, a, g.Size()) > 0
    ensures multiset(s.retired)[a] <= 1
    ensures a in s.retired ==> forall t: nat :: t < g.Size() && g.owner[t] == a ==> !InFlight(s, t)
  {
    ReachableInv(g, c, s);
    LimitsWithinTarget(g, s, a);
    CountReachesTotal(g, s, a);
    forall t: nat | a in s.retired && t < g.Size() && g.owner[t] == a
      ensures !InFlight(s, t)
    {
      assert g.Cap(t) == g.Target(a);
    }
  }

  lemma CountReachesTotal(g: Graph, s: State, a: nat)
    requires g.Shaped() && |s.iter| == g.Size() && |s.count| == |g.apps| && a < |g.apps| && CountInv(g, s)
    requires g.Target(a) >= 1 ==> WithinTarget(g, s.iter, a)
    ensures s.count[a] == Total(g, a) && s.count[a] > 0
            <==> Finished(g, s, a) && g.Target(a) >= 1 && TaskCount(g, a, g.Size()) > 0
  {
    if g.Target(a) >= 1 {
      TotalReached(g, s.iter, a, g.Size(), g.Target(a));
      PositiveProduct(TaskCount(g, a, g.Size()), g.Target(a));
    }
  }

  lemma PositiveProduct(x: nat, y: nat)
    requires y >= 1
    ensures x > 0 <==> x * y > 0
  {
    MulMono(1, y, x);
  }

  /** completed_task_count is the number of frames its tasks have finished. */
  lemma CountIsFramesDone(g: Graph, c: Config, s: State, a: nat)
    requires g.WellFormed() && c.For(g) && ReachableState(g, c, s) && a < |g.apps|
    ensures s.Fits(g, c) && s.count[a] == FramesDone(g, s.iter, a, g.Size())
  {
    ReachableInv(g, c, s);
  }

  /** Non-queued mode: a PE never holds two tasks, and free_resource_count is the number of PEs
      holding none -- for a policy that decrements it. For one that does not, the counter has
      drifted by the number of tasks drained so far. */
  lemma FreeCountExact(g: Graph, c: Config, s: State)
    requires g.WellFormed() && c.For(g) && ReachableState(g, c, s) && !c.queueing
    ensures s.Fits(g, c) && forall pe :: 0 <= pe < c.pes ==> Load(s, pe) <= 1
    ensures c.counts ==> 0 <= s.free == IdleCount(s, c.pes)
    ensures !c.counts ==> s.free == c.pes + Sizes(s.drained)
  {
    ReachableInv(g, c, s);
  }

  /** The decrement in an assignment never underflows the unsigned counter. */
  lemma AssignHasFreePe(g: Graph, c: Config, s: State, i: nat, pe: nat)
    requires g.WellFormed() && c.For(g) && ReachableState(g, c, s) && !c.queueing && c.counts
    requires s.Fits(g, c) && Enabled(g, c, s, Assign(i, pe))
    ensures s.free >= 1
  {
    ReachableInv(g, c, s);
    IdleCounted(s, c.pes, pe);
  }

  lemma {:induction false} IdleCounted(s: State, n: nat, pe: nat)
    requires pe < n <= |s.todo| == |s.slot| == |s.done| && Load(s, pe) == 0
    ensures IdleCount(s, n) >= 1
  {
    if pe < n - 1 {
      IdleCounted(s, n - 1, pe);
    }
  }
}
