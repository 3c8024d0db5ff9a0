/** Deadlock freedom and completion: a run of the DAG runtime that can take no further step has
    completed every application exactly when the graph is Healthy. */
module DagProgress {
  import opened Basics
  import opened Bits
  import opened DagGraph
  import opened DagSystem
  import opened DagLocation
  import opened DagSafety
  import opened DagCounting
  import opened DagRuns
  import opened DagTheorems

  ghost predicate Stuck(g: Graph, c: Config, s: State)
    requires g.Shaped() && c.For(g) && s.Fits(g, c)
  {
    forall step :: !Enabled(g, c, s, step)
  }

  /** Every task can run on some PE. */
  ghost predicate Runnable(g: Graph, c: Config)
    requires c.For(g)
  {
    forall t :: 0 <= t < g.Size() ==> c.canRun[t] != {}
  }

  /** Every application with tasks is retired, and every task has run its number of frames. */
  ghost predicate AllComplete(g: Graph, s: State)
    requires g.Shaped() && |s.iter| == g.Size()
  {
    forall t :: 0 <= t < g.Size() ==> g.owner[t] in s.retired && s.iter[t] == g.Target(g.owner[t])
  }

  ghost predicate Eligible(g: Graph, iter: seq<nat>, t: nat)
    requires g.Shaped() && |iter| == g.Size()
  {
    t < g.Size() && g.ModeOf(t) != NonStreaming && iter[t] < g.apps[g.owner[t]].frames
    && PredOk(g, iter, t) && SuccOk(g, iter, t)
  }

  /** Nothing in flight, everything arrived. */
  ghost predicate Quiet(g: Graph, s: State)
    requires g.Shaped()
  {
    && |s.iter| == |s.queued| == g.Size() && |s.arrived| == |g.apps|
    && (forall t :: 0 <= t < g.Size() ==> !s.queued[t])
    && (forall a :: 0 <= a < |g.apps| ==> s.arrived[a])
    && CounterInv(g, s.iter, s.queued, s.arrived)
  }

  // ---- a slowest, earliest task is eligible ----

  /** t is as slow as any task of its application, and no predecessor is as slow. */
  ghost predicate Front(g: Graph, iter: seq<nat>, t: nat)
    requires g.Shaped() && |iter| == g.Size()
  {
    && t < g.Size()
    && (forall u :: 0 <= u < g.Size() && g.owner[u] == g.owner[t] ==> iter[u] >= iter[t])
    && (forall p :: p in g.preds[t] ==> iter[p] > iter[t])
  }

  lemma StreamingEdge(g: Graph, s: State, p: nat, t: nat)
    requires g.WellFormed() && Quiet(g, s) && t < g.Size() && p < g.Size() && p in g.Pred(t) && !g.HeadTail(p)
    ensures EdgeOk(g.ModeOf(t), g.Head(t), s.iter[p], s.iter[t], s.queued[p], s.queued[t])
    ensures g.owner[p] == g.owner[t]
  {
    LinksMirror(g, p, t);
  }

  lemma FrontEligibleBuffered(g: Graph, s: State, t: nat)
    requires g.WellFormed() && Quiet(g, s) && Front(g, s.iter, t)
    requires g.ModeOf(t) == SingleBuffer || g.ModeOf(t) == DoubleBuffer
    ensures PredOk(g, s.iter, t) && SuccOk(g, s.iter, t)
  {
    forall k | 0 <= k < |g.Pred(t)|
      ensures PredGuard(g.ModeOf(t), g.Head(t), s.iter[g.Pred(t)[k]], s.iter[t])
    {
      InPred(g, t, k);
      StreamingEdge(g, s, g.Pred(t)[k], t);
    }
    forall k | 0 <= k < |g.Succ(t)|
      ensures SuccGuard(g.ModeOf(t), g.Tail(t), s.iter[g.Succ(t)[k]], s.iter[t])
    {
      var v := g.Succ(t)[k];
      assert v in g.Succ(t);
      LinksMirror(g, t, v);
      StreamingEdge(g, s, t, v);
      CountersFit(g, s.iter, s.queued, s.arrived, t);
      CountersFit(g, s.iter, s.queued, s.arrived, v);
      DoubleBufferGuard(s.iter[v], s.iter[t]);
    }
  }

  /** Heads of a sequential application that is healthy but may contain head-and-tail nodes are one
      frame ahead of any unfinished tail that is not itself a head. */
  lemma HeadsAhead(g: Graph, s: State, t: nat, h: nat)
    requires g.WellFormed() && Quiet(g, s) && g.Healthy() && Front(g, s.iter, t)
    requires g.ModeOf(t) == Sequential && !g.Head(t) && g.Tail(t) && s.iter[t] < g.Target(g.owner[t])
    requires h < g.Size() && g.owner[h] == g.owner[t] && g.Head(h) && s.iter[h] != s.iter[t]
    ensures s.iter[h] == s.iter[t] + 1
  {
    assert t in g.Pred(h);
    StreamingEdge(g, s, t, h);
  }

  lemma FrontEligibleSequential(g: Graph, s: State, t: nat)
    requires g.WellFormed() && Quiet(g, s) && g.Healthy() && Front(g, s.iter, t)
    requires g.ModeOf(t) == Sequential && s.iter[t] < g.Target(g.owner[t])
    requires g.Head(t)
             || forall h :: 0 <= h < g.Size() && g.owner[h] == g.owner[t] && g.Head(h) ==> s.iter[h] > s.iter[t]
    ensures PredOk(g, s.iter, t) && SuccOk(g, s.iter, t)
  {
    HeadStarted(g, s, t);
    forall k | 0 <= k < |g.Pred(t)|
      ensures PredGuard(g.ModeOf(t), g.Head(t), s.iter[g.Pred(t)[k]], s.iter[t])
    {
      InPred(g, t, k);
      var p := g.Pred(t)[k];
      LinksMirror(g, p, t);
      if g.Head(t) {
        assert !g.HeadTail(p);
        StreamingEdge(g, s, p, t);
      }
    }
    forall k | 0 <= k < |g.Succ(t)|
      ensures SuccGuard(g.ModeOf(t), g.Tail(t), s.iter[g.Succ(t)[k]], s.iter[t])
    {
      var v := g.Succ(t)[k];
      assert v in g.Succ(t);
      LinksMirror(g, t, v);
      if g.Tail(t) {
        HeadsAhead(g, s, t, v);
      } else {
        StreamingEdge(g, s, t, v);
        TailFeedsHeads(g, t, v);
      }
    }
  }

  /** A head still short of its target in a healthy sequential application has run at least once, so
      the target is 2 or more and there is no head-and-tail node. */
  lemma HeadStarted(g: Graph, s: State, t: nat)
    requires g.WellFormed() && Quiet(g, s) && g.Healthy() && t < g.Size()
    requires g.ModeOf(t) == Sequential && s.iter[t] < g.Target(g.owner[t])
    ensures g.Head(t) ==> forall u :: 0 <= u < g.Size() && g.owner[u] == g.owner[t] ==> !g.HeadTail(u)
    ensures g.Head(t) ==> g.Target(g.owner[t]) >= 2
  {
  }

  /** u runs before t: fewer frames done, or as many and a head where t is none, or earlier in order. */
  ghost predicate Before(g: Graph, iter: seq<nat>, order: seq<nat>, t: nat, u: nat)
    requires g.Shaped() && |iter| == |order| == g.Size() && t < g.Size()
  {
    u < g.Size() && g.owner[u] == g.owner[t]
    && (iter[u] < iter[t]
        || (iter[u] == iter[t] && !g.Head(t) && (g.Head(u) || order[u] < order[t])))
  }

  /** A task that neither guard lets through has one before it. */
  lemma BlockedOrEligible(g: Graph, s: State, order: seq<nat>, t: nat)
    requires g.WellFormed() && g.Topological(order) && Quiet(g, s) && g.Healthy()
    requires t < g.Size() && g.ModeOf(t) != NonStreaming && s.iter[t] < g.Target(g.owner[t])
    ensures Eligible(g, s.iter, t) || exists u: nat :: Before(g, s.iter, order, t, u)
  {
    FirstOrBefore(g, s.iter, order, t);
    if First(g, s.iter, t) {
      FrontEligible(g, s, t);
    }
  }

  lemma FirstOrBefore(g: Graph, iter: seq<nat>, order: seq<nat>, t: nat)
    requires g.WellFormed() && g.Topological(order) && t < g.Size() == |iter|
    ensures First(g, iter, t) || exists u: nat :: Before(g, iter, order, t, u)
  {
    if slower: nat :| SlowerThan(g, iter, t, slower) {
      assert Before(g, iter, order, t, slower);
    } else if h: nat :| HeadAsSlow(g, iter, t, h) {
      assert Before(g, iter, order, t, h);
    } else if p: nat :| PredAsSlow(g, iter, t, p) {
      assert Before(g, iter, order, t, p);
    }
  }

  /** From any unfinished task, follow slower tasks, unfinished heads and equally slow predecessors
      to a task that both guards let through. */
  lemma {:induction false} SomeTaskEligible(g: Graph, s: State, order: seq<nat>, t: nat) returns (v: nat)
    requires g.WellFormed() && g.Topological(order) && Quiet(g, s) && g.Healthy()
    requires t < g.Size() && g.ModeOf(t) != NonStreaming && s.iter[t] < g.Target(g.owner[t])
    ensures v < g.Size() && g.owner[v] == g.owner[t] && Eligible(g, s.iter, v)
    decreases s.iter[t], if g.Head(t) then 0 else 1, order[t]
  {
    BlockedOrEligible(g, s, order, t);
    if u: nat :| Before(g, s.iter, order, t, u) {
      v := SomeTaskEligible(g, s, order, u);
    } else {
      v := t;
    }
  }

  ghost predicate SlowerThan(g: Graph, iter: seq<nat>, t: nat, u: nat)
    requires g.Shaped() && t < g.Size() == |iter|
  {
    u < g.Size() && g.owner[u] == g.owner[t] && iter[u] < iter[t]
  }

  ghost predicate HeadAsSlow(g: Graph, iter: seq<nat>, t: nat, h: nat)
    requires g.Shaped() && t < g.Size() == |iter|
  {
    h < g.Size() && g.owner[h] == g.owner[t] && iter[h] == iter[t] && g.Head(h) && !g.Head(t)
  }

  ghost predicate PredAsSlow(g: Graph, iter: seq<nat>, t: nat, p: nat)
    requires g.WellFormed() && t < g.Size() == |iter|
  {
    p < g.Size() && p in g.preds[t] && iter[p] == iter[t]
  }

  ghost predicate First(g: Graph, iter: seq<nat>, t: nat)
    requires g.WellFormed() && t < g.Size() == |iter|
  {
    && (forall u: nat :: !SlowerThan(g, iter, t, u))
    && (forall h: nat :: !HeadAsSlow(g, iter, t, h))
    && (forall p: nat :: !PredAsSlow(g, iter, t, p))
  }

  lemma FrontEligible(g: Graph, s: State, t: nat)
    requires g.WellFormed() && Quiet(g, s) && g.Healthy()
    requires t < g.Size() && g.ModeOf(t) != NonStreaming && s.iter[t] < g.Target(g.owner[t]) && First(g, s.iter, t)
    ensures Eligible(g, s.iter, t)
  {
    FrontHere(g, s, t);
    if g.ModeOf(t) == Sequential {
      HeadsFurther(g, s, t);
      FrontEligibleSequential(g, s, t);
    } else {
      FrontEligibleBuffered(g, s, t);
    }
  }

  lemma HeadsFurther(g: Graph, s: State, t: nat)
    requires g.WellFormed() && Quiet(g, s) && t < g.Size() && First(g, s.iter, t)
    ensures g.Head(t)
            || forall h :: 0 <= h < g.Size() && g.owner[h] == g.owner[t] && g.Head(h) ==> s.iter[h] > s.iter[t]
  {
    forall h | 0 <= h < g.Size() && g.owner[h] == g.owner[t] && g.Head(h) && !g.Head(t)
      ensures s.iter[h] > s.iter[t]
    {
      assert !HeadAsSlow(g, s.iter, t, h) && !SlowerThan(g, s.iter, t, h);
    }
  }

  lemma FrontHere(g: Graph, s: State, t: nat)
    requires g.WellFormed() && Quiet(g, s) && t < g.Size() && First(g, s.iter, t)
    ensures Front(g, s.iter, t)
  {
    forall u | 0 <= u < g.Size() && g.owner[u] == g.owner[t]
      ensures s.iter[u] >= s.iter[t]
    {
      assert !SlowerThan(g, s.iter, t, u);
    }
    forall p | p in g.preds[t]
      ensures s.iter[p] > s.iter[t]
    {
      assert !SlowerThan(g, s.iter, t, p) && !PredAsSlow(g, s.iter, t, p);
    }
  }

  /** Non-streaming: with nothing in flight every task has run. */
  lemma {:induction false} QuietMeansDone(g: Graph, s: State, order: seq<nat>, t: nat)
    requires g.WellFormed() && g.Topological(order) && Quiet(g, s) && t < g.Size() && g.ModeOf(t) == NonStreaming
    ensures s.iter[t] == 1
    decreases order[t]
  {
    forall k | 0 <= k < |g.Pred(t)|
      ensures s.iter[g.Pred(t)[k]] >= 1
    {
      InPred(g, t, k);
      LinksMirror(g, g.Pred(t)[k], t);
      QuietMeansDone(g, s, order, g.Pred(t)[k]);
    }
    assert PredsDone(g, s.iter, t);
    assert g.Cap(t) == 1;
  }

  // ---- stuck states ----

  lemma {:induction false} BagMember(queues: seq<seq<nat>>, t: nat) returns (i: nat)
    requires t in Bag(queues)
    ensures i < |queues| && t in queues[i]
  {
    if t in queues[0] {
      i := 0;
    } else {
      i := BagMember(queues[1..], t);
      i := i + 1;
    }
  }

  /** A task in flight always has a next step: it can be drained, finished, taken or assigned. */
  lemma InFlightCanMove(g: Graph, c: Config, s: State, t: nat) returns (step: Step)
    requires g.WellFormed() && c.For(g) && s.Fits(g, c) && Runnable(g, c) && InFlight(s, t)
    ensures Enabled(g, c, s, step)
  {
    if pe: nat :| pe < c.pes && s.done[pe] != [] {
      step := Drain(pe);
    } else if pe: nat :| pe < c.pes && s.slot[pe].Some? {
      step := Finish(pe);
    } else if pe: nat :| pe < c.pes && s.todo[pe] != [] {
      step := Take(pe);
    } else {
      if t in Bag(s.done) {
        var i := BagMember(s.done, t);
      }
      if t in Bag(Slots(s.slot)) {
        var i := BagMember(Slots(s.slot), t);
      }
      if t in Bag(s.todo) {
        var i := BagMember(s.todo, t);
      }
      assert t in multiset(s.ready);
      var i :| 0 <= i < |s.ready| && s.ready[i] == t;
      var pe :| pe in c.canRun[t];
      step := Assign(i, pe);
    }
  }

  lemma InFlightNotStuck(g: Graph, c: Config, s: State, t: nat)
    requires g.WellFormed() && c.For(g) && s.Fits(g, c) && Runnable(g, c)
    ensures InFlight(s, t) ==> !Stuck(g, c, s)
  {
    if InFlight(s, t) {
      var step := InFlightCanMove(g, c, s, t);
    }
  }

  lemma StuckIsQuiet(g: Graph, c: Config, s: State)
    requires g.WellFormed() && c.For(g) && Runnable(g, c) && Inv(g, c, s) && Stuck(g, c, s)
    requires forall t: nat :: InFlight(s, t) <==> t < g.Size() && s.queued[t]
    ensures Quiet(g, s)
  {
    forall t: nat
      ensures !InFlight(s, t)
    {
      InFlightNotStuck(g, c, s, t);
    }
    forall a: nat | a < |g.apps|
      ensures s.arrived[a]
    {
      assert !Enabled(g, c, s, Arrive(a));
    }
    forall t: nat | t < g.Size()
      ensures !s.queued[t]
    {
      assert !InFlight(s, t);
    }
  }

  /** Deadlock freedom: in a healthy acyclic graph, whatever its modes, a reachable state with no
      enabled step has every application retired and every task exactly at its frame count. */
  lemma HealthyCompletes(g: Graph, c: Config, s: State)
    requires g.WellFormed() && g.Acyclic() && c.For(g) && Runnable(g, c) && g.Healthy()
    requires ReachableState(g, c, s) && s.Fits(g, c) && Stuck(g, c, s)
    ensures AllComplete(g, s)
  {
    ReachableInv(g, c, s);
    StuckIsQuiet(g, c, s);
    var order :| g.Topological(order);
    forall t: nat | t < g.Size()
      ensures s.iter[t] == g.Target(g.owner[t])
    {
      if g.ModeOf(t) == NonStreaming {
        QuietMeansDone(g, s, order, t);
      } else if s.iter[t] != g.Target(g.owner[t]) {
        UnfinishedNotStuck(g, c, s, order, t);
      }
    }
    forall t: nat | t < g.Size()
      ensures g.owner[t] in s.retired
    {
      RetiredExactlyWhenFinished(g, c, s, g.owner[t]);
      OwnerHasTasks(g, t, g.Size());
    }
  }

  lemma UnfinishedNotStuck(g: Graph, c: Config, s: State, order: seq<nat>, t: nat)
    requires g.WellFormed() && g.Topological(order) && c.For(g) && ReachableState(g, c, s) && s.Fits(g, c)
    requires Quiet(g, s) && g.Healthy()
    requires t < g.Size() && g.ModeOf(t) != NonStreaming && s.iter[t] != g.Target(g.owner[t])
    ensures !Stuck(g, c, s)
  {
    assert s.iter[t] <= g.Cap(t) == g.Target(g.owner[t]);
    var v := SomeTaskEligible(g, s, order, t);
    RetiredExactlyWhenFinished(g, c, s, g.owner[v]);
    assert Enabled(g, c, s, Queue(v));
  }

  lemma {:induction false} OwnerHasTasks(g: Graph, t: nat, n: nat)
    requires t < n <= g.Size()
    ensures TaskCount(g, g.owner[t], n) > 0
  {
    if t < n - 1 {
      OwnerHasTasks(g, t, n - 1);
    }
  }

  /** The other half: in an unhealthy graph no reachable state has everything complete. A streaming
      application with no frame count executes its heads and then counts past its total of 0; a
      head-and-tail node of a longer sequential application runs once and never again. */
  lemma UnhealthyNeverCompletes(g: Graph, c: Config, s: State)
    requires g.WellFormed() && c.For(g) && !g.Healthy() && ReachableState(g, c, s)
    ensures s.Fits(g, c) && !AllComplete(g, s)
  {
    var t := FindBlocked(g);
    BlockedNeverCompletes(g, c, s, t);
  }

  lemma FindBlocked(g: Graph) returns (t: nat)
    requires g.Shaped() && !g.Healthy()
    ensures t < g.Size() && Blocked(g, t)
  {
    t :| t < g.Size() && !(g.Target(g.owner[t]) >= 1 && (g.HeadTail(t) ==> g.Target(g.owner[t]) <= 1));
  }

  lemma BlockedNeverCompletes(g: Graph, c: Config, s: State, t: nat)
    requires g.WellFormed() && c.For(g) && ReachableState(g, c, s) && t < g.Size() && Blocked(g, t)
    ensures s.Fits(g, c) && !(g.owner[t] in s.retired && s.iter[t] == g.Target(g.owner[t]))
  {
    RetiredExactlyWhenFinished(g, c, s, g.owner[t]);
    ReachableInv(g, c, s);
    BlockedShort(g, s, t);
  }

  predicate Blocked(g: Graph, t: nat)
    requires g.Shaped() && t < g.Size()
  {
    g.Target(g.owner[t]) == 0 || (g.HeadTail(t) && g.Target(g.owner[t]) > 1)
  }

  lemma BlockedShort(g: Graph, s: State, t: nat)
    requires g.WellFormed() && |s.iter| == |s.queued| == g.Size() && |s.arrived| == |g.apps|
    requires LimitInv(g, s.iter, s.queued, s.arrived) && t < g.Size() && Blocked(g, t)
    ensures g.Target(g.owner[t]) == 0 || s.iter[t] != g.Target(g.owner[t])
  {
  }

  /** A run that cannot be continued has completed everything if and only if the graph is healthy. */
  lemma CompletionCriterion(g: Graph, c: Config, s: State)
    requires g.WellFormed() && g.Acyclic() && c.For(g) && Runnable(g, c)
    requires ReachableState(g, c, s) && s.Fits(g, c) && Stuck(g, c, s)
    ensures AllComplete(g, s) <==> g.Healthy()
  {
    if g.Healthy() {
      HealthyCompletes(g, c, s);
    } else {
      UnhealthyNeverCompletes(g, c, s);
    }
  }

  function CapSum(g: Graph, n: nat): nat
    requires g.Shaped() && n <= g.Size()
  {
    if n == 0 then 0 else CapSum(g, n - 1) + g.Cap(n - 1)
  }

  lemma {:induction false} InitialRemaining(g: Graph, iter: seq<nat>, n: nat)
    requires g.Shaped() && n <= g.Size() == |iter| && forall t :: 0 <= t < |iter| ==> iter[t] == 0
    ensures Remaining(g, iter, n) == CapSum(g, n)
  {
    if n != 0 {
      InitialRemaining(g, iter, n - 1);
    }
  }

  lemma {:induction false} InitialUnarrived(arrived: seq<bool>, n: nat)
    requires n <= |arrived| && forall a :: 0 <= a < |arrived| ==> !arrived[a]
    ensures Unarrived(arrived, n) == n
  {
    if n != 0 {
      InitialUnarrived(arrived, n - 1);
    }
  }

  /** Termination: no run, under any interleaving, is longer than one step per application and five
      per task and frame. */
  lemma RunsAreBounded(g: Graph, c: Config, steps: seq<Step>, s: State)
    requires g.WellFormed() && c.For(g) && Runs(g, c, Init(g, c), steps, s)
    ensures |steps| <= |g.apps| + 5 * CapSum(g, g.Size())
  {
    Reachable(g, c, steps, s);
    InitialMeasure(g, Init(g, c));
  }

  lemma InitialMeasure(g: Graph, s: State)
    requires g.Shaped() && |s.iter| == g.Size() && (forall t :: 0 <= t < |s.iter| ==> s.iter[t] == 0)
    requires |s.arrived| == |g.apps| && (forall a :: 0 <= a < |s.arrived| ==> !s.arrived[a]) && s.ready == []
    requires (forall k :: 0 <= k < |s.todo| ==> s.todo[k] == []) && (forall k :: 0 <= k < |s.done| ==> s.done[k] == [])
    requires forall k :: 0 <= k < |s.slot| ==> s.slot[k] == None
    ensures Measure(g, s) == |g.apps| + 5 * CapSum(g, g.Size())
  {
    InitialRemaining(g, s.iter, g.Size());
    InitialUnarrived(s.arrived, |s.arrived|);
    EmptySizes(s.todo);
    EmptySizes(s.done);
    EmptySizes(Slots(s.slot));
  }

  /** One application of one task, with no edges. */
  function Lone(a: App): Graph { Graph([a], [0], [[]], [[]]) }

  lemma LoneTask(a: App)
    requires a.frames < 0x8000_0000
    ensures Lone(a).WellFormed() && Lone(a).Acyclic() && Lone(a).Head(0) && Lone(a).Tail(0)
            && Lone(a).ModeOf(0) == a.mode
  {
    assert Lone(a).Topological([0]);
  }

  /** The two ways to be unhealthy: a sequential task that is head and tail with two frames to do, and
      a streaming task with none. */
  lemma UnhealthyExamples()
    ensures Lone(App(Sequential, 2)).WellFormed() && !Lone(App(Sequential, 2)).Healthy()
    ensures Lone(App(SingleBuffer, 0)).WellFormed() && !Lone(App(SingleBuffer, 0)).Healthy()
  {
    LoneUnhealthy(App(Sequential, 2));
    LoneUnhealthy(App(SingleBuffer, 0));
  }

  /** Among the applications of one task these are the unhealthy ones. */
  lemma LoneUnhealthy(a: App)
    requires a.frames < 0x8000_0000
    ensures Lone(a).WellFormed()
    ensures !Lone(a).Healthy() <==> (a.mode != NonStreaming && a.frames == 0) || (a.mode == Sequential && a.frames > 1)
  {
    LoneTask(a);
  }
}
