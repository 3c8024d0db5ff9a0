/** Sequential mode never lets two frames of one application overlap, whatever its graph. */
module DagSequential {
  import opened Basics
  import opened Bits
  import opened DagGraph
  import opened DagSystem
  import opened DagLocation
  import opened DagSafety
  import opened DagRuns
  import opened DagTheorems

  // ---- heads wait for every tail ----

  /** A head is at most one frame ahead of a tail, and starts a frame only when the tail has finished
      all earlier ones. Unlike the edge discipline this also covers tails that are heads. */
  predicate Waits(tail: nat, head: nat, headInFlight: bool) {
    head <= tail + 1 && (headInFlight ==> head <= tail)
  }

  ghost predicate HeadsWait(g: Graph, iter: seq<nat>, queued: seq<bool>)
    requires g.Shaped() && |iter| == |queued| == g.Size()
  {
    forall s, p :: 0 <= s < g.Size() && p in g.Pred(s) && g.ModeOf(s) == Sequential && g.Head(s) ==>
      Waits(iter[p], iter[s], queued[s])
  }

  /** A task newly in flight has passed its predecessor guard, which makes it wait. */
  lemma PushKeepsWaiting(g: Graph, iter: seq<nat>, queued: seq<bool>, queued': seq<bool>)
    requires g.WellFormed() && |iter| == |queued| == |queued'| == g.Size() && HeadsWait(g, iter, queued)
    requires forall t :: 0 <= t < g.Size() && queued'[t] && g.ModeOf(t) == Sequential ==>
             queued[t] || PredOk(g, iter, t)
    ensures HeadsWait(g, iter, queued')
  {
    forall s, p | 0 <= s < g.Size() && p in g.Pred(s) && g.ModeOf(s) == Sequential && g.Head(s)
      ensures Waits(iter[p], iter[s], queued'[s])
    {
      assert Waits(iter[p], iter[s], queued[s]);
      var k :| 0 <= k < |g.Pred(s)| && g.Pred(s)[k] == p;
      assert PredOk(g, iter, s) ==> PredGuard(Sequential, true, iter[p], iter[s]);
    }
  }

  /** A drained task was in flight, so it had waited. */
  lemma DrainKeepsWaiting(g: Graph, iter: seq<nat>, queued: seq<bool>, t: nat)
    requires g.WellFormed() && |iter| == |queued| == g.Size() && HeadsWait(g, iter, queued)
    requires t < g.Size() && queued[t]
    ensures HeadsWait(g, iter[t := iter[t] + 1], queued[t := false])
  {
    var iter', queued' := iter[t := iter[t] + 1], queued[t := false];
    forall s, p | 0 <= s < g.Size() && p in g.Pred(s) && g.ModeOf(s) == Sequential && g.Head(s)
      ensures Waits(iter'[p], iter'[s], queued'[s])
    {
      assert Waits(iter[p], iter[s], queued[s]);
    }
  }

  lemma WakeKeepsWaiting(g: Graph, s: State, t: nat)
    requires g.WellFormed() && |s.iter| == |s.queued| == g.Size() && HeadsWait(g, s.iter, s.queued) && t < g.Size()
    ensures |Wake(g, s, t).queued| == g.Size() && HeadsWait(g, s.iter, Wake(g, s, t).queued)
  {
    WakeMarks(g, s, t);
    WokenMeansPassed(g, s.iter, s.queued, Wake(g, s, t).queued, t);
    PushKeepsWaiting(g, s.iter, s.queued, Wake(g, s, t).queued);
  }

  lemma CompletedWaits(g: Graph, s: State, t: nat)
    requires g.WellFormed() && |s.iter| == |s.queued| == g.Size() && HeadsWait(g, s.iter, s.queued)
    requires |s.count| == |g.apps| && t < g.Size() && s.queued[t]
    ensures var s' := Completed(g, s, t);
            |s'.iter| == |s'.queued| == g.Size() && HeadsWait(g, s'.iter, s'.queued)
  {
    DrainKeepsWaiting(g, s.iter, s.queued, t);
    WakeKeepsWaiting(g, Counted(g, s, t), t);
  }

  lemma DrainStepWaits(g: Graph, c: Config, s: State, pe: nat)
    requires g.WellFormed() && c.For(g) && Inv(g, c, s) && HeadsWait(g, s.iter, s.queued) && Enabled(g, c, s, Drain(pe))
    ensures var s' := Apply(g, c, s, Drain(pe));
            |s'.iter| == |s'.queued| == g.Size() && HeadsWait(g, s'.iter, s'.queued)
  {
    DrainedIsQueued(g, c, s, pe);
    CompletedWaits(g, Popped(c, s, pe), s.done[pe][0]);
  }

  lemma WokenMeansPassed(g: Graph, iter: seq<nat>, queued: seq<bool>, queued': seq<bool>, t: nat)
    requires g.WellFormed() && |iter| == |queued| == |queued'| == g.Size() && t < g.Size()
    requires WokenWith(g, iter, queued, queued', t)
    ensures forall u :: 0 <= u < g.Size() && queued'[u] ==> queued[u] || PredOk(g, iter, u)
  {
  }

  lemma PushStepWaits(g: Graph, s: State, list: seq<nat>)
    requires g.WellFormed() && |s.iter| == |s.queued| == g.Size() && HeadsWait(g, s.iter, s.queued)
    requires forall t: nat :: t in list && t < g.Size() ==> PredOk(g, s.iter, t)
    ensures |Push(s, list).queued| == g.Size() && HeadsWait(g, s.iter, Push(s, list).queued)
  {
    PushKeepsWaiting(g, s.iter, s.queued, Push(s, list).queued);
  }

  lemma StepWaits(g: Graph, c: Config, s: State, step: Step)
    requires g.WellFormed() && c.For(g) && Inv(g, c, s) && HeadsWait(g, s.iter, s.queued) && Enabled(g, c, s, step)
    ensures var s' := Apply(g, c, s, step);
            |s'.iter| == |s'.queued| == g.Size() && HeadsWait(g, s'.iter, s'.queued)
  {
    match step
    case Arrive(a) => PushStepWaits(g, s, Arriving(g, s.iter, a, g.Size()));
    case Queue(t) => PushStepWaits(g, s, [t]);
    case Drain(pe) => DrainStepWaits(g, c, s, pe);
    case _ =>
  }

  lemma {:induction false} RunWaits(g: Graph, c: Config, s: State, steps: seq<Step>, s': State)
    requires g.WellFormed() && c.For(g) && Inv(g, c, s) && HeadsWait(g, s.iter, s.queued) && Runs(g, c, s, steps, s')
    ensures Inv(g, c, s') && HeadsWait(g, s'.iter, s'.queued)
    decreases |steps|
  {
    if steps != [] {
      StepWaits(g, c, s, steps[0]);
      StepKeepsInv(g, c, s, steps[0]);
      RunWaits(g, c, Apply(g, c, s, steps[0]), steps[1..], s');
    }
  }

  lemma ReachableHeadsWait(g: Graph, c: Config, s: State)
    requires g.WellFormed() && c.For(g) && ReachableState(g, c, s)
    ensures |s.iter| == |s.queued| == g.Size() && HeadsWait(g, s.iter, s.queued)
  {
    var steps :| Runs(g, c, Init(g, c), steps, s);
    InitInv(g, c);
    RunWaits(g, c, Init(g, c), steps, s);
  }

  // ---- frames ----

  /** Some head of the application is at least as far as t. */
  lemma {:induction false} HeadAhead(g: Graph, s: State, order: seq<nat>, t: nat) returns (h: nat)
    requires g.WellFormed() && g.Topological(order) && |s.iter| == |s.queued| == g.Size()
    requires EdgeInv(g, s.iter, s.queued) && t < g.Size() && g.ModeOf(t) == Sequential
    ensures h < g.Size() && g.owner[h] == g.owner[t] && g.Head(h) && s.iter[h] >= s.iter[t]
    decreases order[t]
  {
    if g.Head(t) {
      h := t;
    } else {
      var p := g.preds[t][0];
      assert p in g.Pred(t);
      LinksMirror(g, p, t);
      assert EdgeOk(g.ModeOf(t), g.Head(t), s.iter[p], s.iter[t], s.queued[p], s.queued[t]);
      h := HeadAhead(g, s, order, p);
    }
  }

  /** Some tail of the application is no further than t. */
  lemma {:induction false} TailBehind(g: Graph, s: State, order: seq<nat>, t: nat) returns (u: nat)
    requires g.WellFormed() && g.Topological(order) && |s.iter| == |s.queued| == g.Size()
    requires EdgeInv(g, s.iter, s.queued) && t < g.Size() && g.ModeOf(t) == Sequential
    ensures u < g.Size() && g.owner[u] == g.owner[t] && g.Tail(u) && s.iter[u] <= s.iter[t]
    decreases |order| - order[t]
  {
    if g.Tail(t) {
      u := t;
    } else {
      var v := g.succs[t][0];
      assert v in g.Succ(t) && t in g.preds[v];
      LinksMirror(g, t, v);
      assert EdgeOk(g.ModeOf(v), g.Head(v), s.iter[t], s.iter[v], s.queued[t], s.queued[v]);
      u := TailBehind(g, s, order, v);
    }
  }

  lemma BackLink(g: Graph, s: State, u: nat, h: nat)
    requires g.WellFormed() && |s.iter| == |s.queued| == g.Size() && HeadsWait(g, s.iter, s.queued)
    requires u < g.Size() && h < g.Size() && g.owner[u] == g.owner[h] && g.ModeOf(h) == Sequential
    requires g.Tail(u) && g.Head(h)
    ensures s.iter[h] <= s.iter[u] + 1 && (s.queued[h] ==> s.iter[h] <= s.iter[u])
  {
    assert u in g.Pred(h);
    assert Waits(s.iter[u], s.iter[h], s.queued[h]);
  }

  lemma WithinOneFrame(g: Graph, s: State, order: seq<nat>, t1: nat, t2: nat)
    requires g.WellFormed() && g.Topological(order) && |s.iter| == |s.queued| == g.Size()
    requires EdgeInv(g, s.iter, s.queued) && HeadsWait(g, s.iter, s.queued) && t1 < g.Size() && t2 < g.Size()
             && g.owner[t1] == g.owner[t2]
    requires g.ModeOf(t1) == Sequential
    ensures s.iter[t1] <= s.iter[t2] + 1
    ensures g.Head(t1) && s.queued[t1] ==> s.iter[t1] <= s.iter[t2]
  {
    var h := HeadAhead(g, s, order, t1);
    var u := TailBehind(g, s, order, t2);
    BackLink(g, s, u, h);
    if g.Head(t1) {
      BackLink(g, s, u, t1);
    }
  }

  /** Every task of the application is at frame k or k + 1. */
  ghost predicate FramesIn(g: Graph, iter: seq<nat>, a: nat, k: nat)
    requires |iter| == g.Size()
  {
    forall t :: 0 <= t < g.Size() && g.owner[t] == a ==> k <= iter[t] <= k + 1
  }

  /** No task of the application is behind the frame task h works on. */
  ghost predicate NoneBehind(g: Graph, iter: seq<nat>, h: nat)
    requires h < |iter| == g.Size()
  {
    forall t :: 0 <= t < g.Size() && g.owner[t] == g.owner[h] ==> iter[t] >= iter[h]
  }

  /** Sequential mode never overlaps frames: all tasks of the application are at frame k or k + 1
      for one k, and a head in flight for a frame means every task has finished all earlier ones. */
  lemma SequentialNoOverlap(g: Graph, c: Config, s: State, a: nat)
    requires g.WellFormed() && g.Acyclic() && c.For(g) && ReachableState(g, c, s)
    requires a < |g.apps| && g.apps[a].mode == Sequential
    ensures |s.iter| == g.Size() && exists k: nat :: FramesIn(g, s.iter, a, k)
    ensures forall h: nat :: h < g.Size() && g.owner[h] == a && g.Head(h) && InFlight(s, h) ==> NoneBehind(g, s.iter, h)
  {
    ReachableInv(g, c, s);
    ReachableHeadsWait(g, c, s);
    var order :| g.Topological(order);
    SameFrame(g, s, order, a);
    forall h: nat | h < g.Size() && g.owner[h] == a && g.Head(h) && InFlight(s, h)
      ensures NoneBehind(g, s.iter, h)
    {
      HeadWaits(g, s, order, h);
    }
  }

  lemma SameFrame(g: Graph, s: State, order: seq<nat>, a: nat)
    requires g.WellFormed() && g.Topological(order) && |s.iter| == |s.queued| == g.Size()
    requires EdgeInv(g, s.iter, s.queued) && HeadsWait(g, s.iter, s.queued) && a < |g.apps|
             && g.apps[a].mode == Sequential
    ensures exists k: nat :: FramesIn(g, s.iter, a, k)
  {
    var k := Slowest(g, s, a, g.Size());
    forall t | 0 <= t < g.Size() && g.owner[t] == a
      ensures k <= s.iter[t] <= k + 1
    {
      var m: nat :| m < g.Size() && g.owner[m] == a && s.iter[m] == k;
      WithinOneFrame(g, s, order, t, m);
    }
    assert FramesIn(g, s.iter, a, k);
  }

  lemma HeadWaits(g: Graph, s: State, order: seq<nat>, h: nat)
    requires g.WellFormed() && g.Topological(order) && |s.iter| == |s.queued| == g.Size()
    requires EdgeInv(g, s.iter, s.queued) && HeadsWait(g, s.iter, s.queued) && h < g.Size() && g.Head(h) && s.queued[h]
    requires g.ModeOf(h) == Sequential
    ensures NoneBehind(g, s.iter, h)
  {
    forall t | 0 <= t < g.Size() && g.owner[t] == g.owner[h]
      ensures s.iter[t] >= s.iter[h]
    {
      WithinOneFrame(g, s, order, h, t);
    }
  }

  /** The lowest frame counter of the application among the first n tasks; 0 if it has none. */
  lemma {:induction false} Slowest(g: Graph, s: State, a: nat, n: nat) returns (k: nat)
    requires n <= g.Size() == |s.iter|
    ensures forall t :: 0 <= t < n && g.owner[t] == a ==> k <= s.iter[t]
    ensures (exists t: nat :: t < n && g.owner[t] == a) ==> exists m: nat :: m < n && g.owner[m] == a && s.iter[m] == k
  {
    k := 0;
    if n != 0 {
      k := Slowest(g, s, a, n - 1);
      if g.owner[n - 1] == a && (s.iter[n - 1] < k || !exists t: nat :: t < n - 1 && g.owner[t] == a) {
        k := s.iter[n - 1];
        var m: nat := n - 1;
        assert m < n && g.owner[m] == a && s.iter[m] == k;
      }
    }
  }
}
