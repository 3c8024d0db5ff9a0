/** What every reachable state keeps, about frame counters and in_ready_queue flags: each edge's
    buffer discipline, frame limits, and the equivalence of incremental wakeup with a full scan. */
module DagSafety {
  import opened DagGraph
  import opened DagSystem

  /** The relation between the counters of an edge p -> s; fp and fs say whether p and s are in
      flight. back: a sequential-mode link from a tail p to a head s. */
  predicate EdgeOk(mode: Mode, back: bool, pi: nat, si: nat, fp: bool, fs: bool) {
    if mode == DoubleBuffer then
      si <= pi <= si + 2 && (fs ==> pi >= si + 1) && (fp ==> pi <= si + 1)
    else if mode == Sequential && back then
      pi <= si <= pi + 1 && (fs ==> si == pi) && (fp ==> si == pi + 1)
    else
      si <= pi <= si + 1 && (fs ==> pi == si + 1) && (fp ==> pi == si)
  }

  /** Edges out of a node that is head and tail of a sequential application are the exception. */
  ghost predicate EdgeInv(g: Graph, iter: seq<nat>, queued: seq<bool>)
    requires g.Shaped() && |iter| == |queued| == g.Size()
  {
    forall s, p :: 0 <= s < g.Size() && p in g.Pred(s) && !g.HeadTail(p) ==>
      EdgeOk(g.ModeOf(s), g.Head(s), iter[p], iter[s], queued[p], queued[s])
  }

  ghost predicate LimitInv(g: Graph, iter: seq<nat>, queued: seq<bool>, arrived: seq<bool>)
    requires g.Shaped() && |iter| == |queued| == g.Size() && |arrived| == |g.apps|
  {
    forall t :: 0 <= t < g.Size() ==>
      && iter[t] + (if queued[t] then 1 else 0) <= g.Cap(t)
      && (!arrived[g.owner[t]] ==> iter[t] == 0 && !queued[t])
      && (g.HeadTail(t) ==> iter[t] + (if queued[t] then 1 else 0) <= 1)
  }

  /** Heads start on arrival. */
  ghost predicate StartInv(g: Graph, iter: seq<nat>, queued: seq<bool>, arrived: seq<bool>)
    requires g.Shaped() && |iter| == |queued| == g.Size() && |arrived| == |g.apps|
  {
    forall t :: 0 <= t < g.Size() && arrived[g.owner[t]] && g.Head(t) ==> queued[t] || iter[t] >= 1
  }

  ghost predicate PredsDone(g: Graph, iter: seq<nat>, t: nat)
    requires g.Shaped() && |iter| == g.Size() && t < g.Size()
  {
    forall k :: 0 <= k < |g.Pred(t)| ==> iter[g.Pred(t)[k]] >= 1
  }

  /** Non-streaming: a task is queued or done exactly when all its predecessors are done. */
  ghost predicate WakeInv(g: Graph, iter: seq<nat>, queued: seq<bool>, arrived: seq<bool>)
    requires g.Shaped() && |iter| == |queued| == g.Size() && |arrived| == |g.apps|
  {
    forall t :: 0 <= t < g.Size() && arrived[g.owner[t]] && g.ModeOf(t) == NonStreaming ==>
      (queued[t] || iter[t] >= 1 <==> PredsDone(g, iter, t))
  }

  ghost predicate CounterInv(g: Graph, iter: seq<nat>, queued: seq<bool>, arrived: seq<bool>)
    requires g.Shaped() && |iter| == |queued| == g.Size() && |arrived| == |g.apps|
  {
    && EdgeInv(g, iter, queued) && LimitInv(g, iter, queued, arrived)
    && StartInv(g, iter, queued, arrived) && WakeInv(g, iter, queued, arrived)
  }

  lemma InPred(g: Graph, t: nat, k: nat)
    requires g.Shaped() && t < g.Size() && k < |g.Pred(t)|
    ensures g.Pred(t)[k] in g.Pred(t)
  {
  }

  // ---- arrival ----

  /** With all counters at 0 the guard passes exactly for the heads. */
  lemma ArrivalPushesHeads(g: Graph, iter: seq<nat>, t: nat)
    requires g.WellFormed() && |iter| == g.Size() && t < g.Size()
    requires forall u :: 0 <= u < g.Size() && g.owner[u] == g.owner[t] ==> iter[u] == 0
    ensures PredOk(g, iter, t) <==> g.Head(t)
  {
    forall k | 0 <= k < |g.Pred(t)|
      ensures iter[g.Pred(t)[k]] == 0
    {
      InPred(g, t, k);
      LinksMirror(g, g.Pred(t)[k], t);
    }
    if !g.Head(t) {
      assert !PredGuard(g.ModeOf(t), g.Head(t), iter[g.Pred(t)[0]], iter[t]);
    }
  }

  ghost predicate ArrivedWith(g: Graph, iter: seq<nat>, queued: seq<bool>, queued': seq<bool>, a: nat)
    requires g.Shaped() && |iter| == |queued| == |queued'| == g.Size()
  {
    forall t :: 0 <= t < g.Size() ==> queued'[t] == (queued[t] || (g.owner[t] == a && g.Head(t)))
  }

  lemma ArriveKeepsEdges(g: Graph, iter: seq<nat>, queued: seq<bool>, queued': seq<bool>, a: nat)
    requires g.WellFormed() && |iter| == |queued| == |queued'| == g.Size() && EdgeInv(g, iter, queued)
    requires forall t :: 0 <= t < g.Size() && g.owner[t] == a ==> iter[t] == 0 && !queued[t]
    requires ArrivedWith(g, iter, queued, queued', a)
    ensures EdgeInv(g, iter, queued')
  {
    forall s, p | 0 <= s < g.Size() && p in g.Pred(s) && !g.HeadTail(p)
      ensures EdgeOk(g.ModeOf(s), g.Head(s), iter[p], iter[s], queued'[p], queued'[s])
    {
      LinksMirror(g, p, s);
      assert EdgeOk(g.ModeOf(s), g.Head(s), iter[p], iter[s], queued[p], queued[s]);
    }
  }

  lemma ArriveKeepsCounters(g: Graph, iter: seq<nat>, queued: seq<bool>, arrived: seq<bool>, queued': seq<bool>, a: nat)
    requires g.WellFormed() && |iter| == |queued| == |queued'| == g.Size() && |arrived| == |g.apps|
    requires CounterInv(g, iter, queued, arrived) && a < |g.apps| && !arrived[a]
    requires ArrivedWith(g, iter, queued, queued', a)
    ensures CounterInv(g, iter, queued', arrived[a := true])
  {
    ArriveKeepsEdges(g, iter, queued, queued', a);
    forall t | 0 <= t < g.Size() && arrived[a := true][g.owner[t]] && g.ModeOf(t) == NonStreaming
      ensures queued'[t] || iter[t] >= 1 <==> PredsDone(g, iter, t)
    {
      if g.owner[t] == a && !g.Head(t) {
        InPred(g, t, 0);
        LinksMirror(g, g.Pred(t)[0], t);
      }
    }
  }

  // ---- the streaming scan ----

  lemma QueueKeepsEdges(g: Graph, iter: seq<nat>, queued: seq<bool>, arrived: seq<bool>, t: nat)
    requires g.WellFormed() && |iter| == |queued| == g.Size() && |arrived| == |g.apps|
    requires EdgeInv(g, iter, queued) && LimitInv(g, iter, queued, arrived)
    requires t < g.Size() && PredOk(g, iter, t) && SuccOk(g, iter, t)
    ensures EdgeInv(g, iter, queued[t := true])
  {
    var queued' := queued[t := true];
    forall s, p | 0 <= s < g.Size() && p in g.Pred(s) && !g.HeadTail(p)
      ensures EdgeOk(g.ModeOf(s), g.Head(s), iter[p], iter[s], queued'[p], queued'[s])
    {
      LinksMirror(g, p, s);
      assert EdgeOk(g.ModeOf(s), g.Head(s), iter[p], iter[s], queued[p], queued[s]);
      if s == t {
        var k :| 0 <= k < |g.Pred(t)| && g.Pred(t)[k] == p;
        assert PredGuard(g.ModeOf(t), g.Head(t), iter[p], iter[t]);
      }
      if p == t {
        var k :| 0 <= k < |g.Succ(t)| && g.Succ(t)[k] == s;
        assert SuccGuard(g.ModeOf(t), g.Tail(t), iter[s], iter[t]);
        CountersFit(g, iter, queued, arrived, s);
        CountersFit(g, iter, queued, arrived, p);
        DoubleBufferGuard(iter[s], iter[p]);
        if g.ModeOf(s) == Sequential {
          TailFeedsHeads(g, p, s);
        }
      }
    }
  }

  lemma CountersFit(g: Graph, iter: seq<nat>, queued: seq<bool>, arrived: seq<bool>, t: nat)
    requires g.WellFormed() && |iter| == |queued| == g.Size() && |arrived| == |g.apps|
    requires LimitInv(g, iter, queued, arrived) && t < g.Size()
    ensures iter[t] < TWO63
  {
  }

  /** In sequential mode the back links are exactly the ones that leave a tail. */
  lemma TailFeedsHeads(g: Graph, p: nat, s: nat)
    requires g.WellFormed() && p < g.Size() && s < g.Size() && p in g.Pred(s) && g.ModeOf(s) == Sequential
    ensures g.Head(s) <==> g.Tail(p)
    ensures g.ModeOf(p) == Sequential
  {
    LinksMirror(g, p, s);
    if !g.Head(s) {
      assert s in g.succs[p];
    }
  }

  lemma QueueKeepsCounters(g: Graph, iter: seq<nat>, queued: seq<bool>, arrived: seq<bool>, t: nat)
    requires g.WellFormed() && |iter| == |queued| == g.Size() && |arrived| == |g.apps|
    requires CounterInv(g, iter, queued, arrived)
    requires t < g.Size() && arrived[g.owner[t]] && g.ModeOf(t) != NonStreaming && !queued[t]
    requires iter[t] < g.apps[g.owner[t]].frames && PredOk(g, iter, t) && SuccOk(g, iter, t)
    ensures CounterInv(g, iter, queued[t := true], arrived)
  {
    QueueKeepsEdges(g, iter, queued, arrived, t);
    HeadTailNeverScanned(g, iter, t);
  }

  /** A head that is also a tail is its own successor: the scan's guard can never pass for it. */
  lemma HeadTailNeverScanned(g: Graph, iter: seq<nat>, t: nat)
    requires g.Shaped() && |iter| == g.Size() && t < g.Size()
    ensures g.HeadTail(t) ==> !SuccOk(g, iter, t)
  {
    if g.HeadTail(t) {
      assert t in g.Succ(t);
      var k :| 0 <= k < |g.Succ(t)| && g.Succ(t)[k] == t;
      assert !SuccGuard(g.ModeOf(t), g.Tail(t), iter[g.Succ(t)[k]], iter[t]);
    }
  }

  // ---- draining a completed task ----

  lemma DrainKeepsEdges(g: Graph, iter: seq<nat>, queued: seq<bool>, t: nat)
    requires g.WellFormed() && |iter| == |queued| == g.Size() && EdgeInv(g, iter, queued)
    requires t < g.Size() && queued[t]
    ensures EdgeInv(g, iter[t := iter[t] + 1], queued[t := false])
  {
    var iter', queued' := iter[t := iter[t] + 1], queued[t := false];
    forall s, p | 0 <= s < g.Size() && p in g.Pred(s) && !g.HeadTail(p)
      ensures EdgeOk(g.ModeOf(s), g.Head(s), iter'[p], iter'[s], queued'[p], queued'[s])
    {
      assert EdgeOk(g.ModeOf(s), g.Head(s), iter[p], iter[s], queued[p], queued[s]);
    }
  }

  /** The flags after a non-streaming task has woken its successors. */
  ghost predicate WokenWith(g: Graph, iter: seq<nat>, queued: seq<bool>, queued': seq<bool>, t: nat)
    requires g.Shaped() && |iter| == |queued| == |queued'| == g.Size() && t < g.Size()
  {
    forall u :: 0 <= u < g.Size() ==>
      queued'[u] == (queued[u] || (g.ModeOf(t) == NonStreaming && u in g.Succ(t) && PredOk(g, iter, u)))
  }

  /** In non-streaming mode a woken task has not run, and neither have its successors. */
  lemma WokenIsFresh(g: Graph, iter: seq<nat>, queued: seq<bool>, t: nat, u: nat)
    requires g.WellFormed() && |iter| == |queued| == g.Size() && t < g.Size() && u < g.Size()
    requires EdgeInv(g, iter, queued) && iter[t] <= 1
    requires g.ModeOf(t) == NonStreaming && u in g.Succ(t) && PredOk(g, iter, u)
    ensures iter[u] == 0 && g.owner[u] == g.owner[t]
    ensures forall p :: p in g.Pred(u) ==> iter[p] == 1
    ensures forall s :: s in g.Succ(u) ==> iter[s] == 0
  {
    LinksMirror(g, t, u);
    var k :| 0 <= k < |g.Pred(u)| && g.Pred(u)[k] == t;
    assert PredGuard(g.ModeOf(u), g.Head(u), iter[t], iter[u]);
    forall p | p in g.Pred(u)
      ensures iter[p] == 1
    {
      var k :| 0 <= k < |g.Pred(u)| && g.Pred(u)[k] == p;
      assert PredGuard(g.ModeOf(u), g.Head(u), iter[p], iter[u]);
    }
    forall s | s in g.Succ(u)
      ensures iter[s] == 0
    {
      LinksMirror(g, u, s);
      assert EdgeOk(g.ModeOf(s), g.Head(s), iter[u], iter[s], queued[u], queued[s]);
    }
  }

  lemma WakeKeepsEdges(g: Graph, iter: seq<nat>, queued: seq<bool>, queued': seq<bool>, t: nat)
    requires g.WellFormed() && |iter| == |queued| == |queued'| == g.Size() && t < g.Size()
    requires EdgeInv(g, iter, queued) && (g.ModeOf(t) == NonStreaming ==> iter[t] <= 1)
    requires WokenWith(g, iter, queued, queued', t)
    ensures EdgeInv(g, iter, queued')
  {
    forall s, p | 0 <= s < g.Size() && p in g.Pred(s) && !g.HeadTail(p)
      ensures EdgeOk(g.ModeOf(s), g.Head(s), iter[p], iter[s], queued'[p], queued'[s])
    {
      assert EdgeOk(g.ModeOf(s), g.Head(s), iter[p], iter[s], queued[p], queued[s]);
      LinksMirror(g, p, s);
      if !queued[s] && queued'[s] {
        WokenIsFresh(g, iter, queued, t, s);
      }
      if !queued[p] && queued'[p] {
        WokenIsFresh(g, iter, queued, t, p);
      }
    }
  }

  lemma DrainKeepsLimits(g: Graph, iter: seq<nat>, queued: seq<bool>, arrived: seq<bool>, t: nat, queued': seq<bool>)
    requires g.WellFormed() && |iter| == |queued| == |queued'| == g.Size() && |arrived| == |g.apps|
    requires EdgeInv(g, iter, queued) && LimitInv(g, iter, queued, arrived) && t < g.Size() && queued[t]
    requires EdgeInv(g, iter[t := iter[t] + 1], queued[t := false])
    requires WokenWith(g, iter[t := iter[t] + 1], queued[t := false], queued', t)
    ensures LimitInv(g, iter[t := iter[t] + 1], queued', arrived)
  {
    var iter' := iter[t := iter[t] + 1];
    forall u | 0 <= u < g.Size()
      ensures iter'[u] + (if queued'[u] then 1 else 0) <= g.Cap(u)
      ensures !arrived[g.owner[u]] ==> iter'[u] == 0 && !queued'[u]
      ensures g.HeadTail(u) ==> iter'[u] + (if queued'[u] then 1 else 0) <= 1
    {
      if queued'[u] && !queued[t := false][u] {
        WokenIsFresh(g, iter', queued[t := false], t, u);
      }
    }
  }

  lemma MorePredsDone(g: Graph, iter: seq<nat>, t: nat, u: nat)
    requires g.Shaped() && |iter| == g.Size() && t < g.Size() && u < g.Size() && PredsDone(g, iter, u)
    ensures PredsDone(g, iter[t := iter[t] + 1], u)
  {
  }

  /** A flagged or finished task has all its predecessors done, also after the drain of t. */
  lemma DrainWakesRightly(g: Graph, iter: seq<nat>, queued: seq<bool>, t: nat, queued': seq<bool>, u: nat)
    requires g.WellFormed() && |iter| == |queued| == |queued'| == g.Size()
    requires t < g.Size() && queued[t] && WokenWith(g, iter[t := iter[t] + 1], queued[t := false], queued', t)
    requires u < g.Size() && g.ModeOf(u) == NonStreaming && (queued[u] || iter[u] >= 1 ==> PredsDone(g, iter, u))
    ensures queued'[u] || iter[t := iter[t] + 1][u] >= 1 ==> PredsDone(g, iter[t := iter[t] + 1], u)
  {
    if PredsDone(g, iter, u) {
      MorePredsDone(g, iter, t, u);
    } else {
      GuardMeansDone(g, iter[t := iter[t] + 1], u);
    }
  }

  /** The last predecessor's drain completes the predecessors of u, which has not run. */
  lemma LastPredDone(g: Graph, iter: seq<nat>, queued: seq<bool>, arrived: seq<bool>, t: nat, u: nat)
    requires g.WellFormed() && |iter| == |queued| == g.Size() && |arrived| == |g.apps|
    requires CounterInv(g, iter, queued, arrived) && t < g.Size() && queued[t]
    requires u < g.Size() && arrived[g.owner[u]] && g.ModeOf(u) == NonStreaming
    requires PredsDone(g, iter[t := iter[t] + 1], u) && !PredsDone(g, iter, u)
    ensures t in g.Pred(u) && u in g.Succ(t) && g.ModeOf(t) == NonStreaming && iter[u] == 0 && !queued[u]
    ensures forall k :: 0 <= k < |g.Pred(u)| ==> iter[t := iter[t] + 1][g.Pred(u)[k]] == 1
  {
    var iter' := iter[t := iter[t] + 1];
    var k :| 0 <= k < |g.Pred(u)| && iter[g.Pred(u)[k]] < 1;
    assert g.Pred(u)[k] == t;
    LinksMirror(g, t, u);
    forall k | 0 <= k < |g.Pred(u)|
      ensures iter'[g.Pred(u)[k]] == 1
    {
      InPred(g, u, k);
      LinksMirror(g, g.Pred(u)[k], u);
      assert g.Cap(g.Pred(u)[k]) == 1;
    }
  }

  lemma AllOneMeansOk(g: Graph, iter: seq<nat>, u: nat)
    requires g.Shaped() && |iter| == g.Size() && u < g.Size() && g.ModeOf(u) == NonStreaming && iter[u] == 0
    requires forall k :: 0 <= k < |g.Pred(u)| ==> iter[g.Pred(u)[k]] == 1
    ensures PredOk(g, iter, u)
  {
  }

  /** A task whose predecessors are all done is flagged or finished, also after the drain of t. */
  lemma DrainWakesAll(g: Graph, iter: seq<nat>, queued: seq<bool>, arrived: seq<bool>, t: nat, queued': seq<bool>,
                      u: nat)
    requires g.WellFormed() && |iter| == |queued| == |queued'| == g.Size() && |arrived| == |g.apps|
    requires CounterInv(g, iter, queued, arrived) && t < g.Size() && queued[t]
    requires WokenWith(g, iter[t := iter[t] + 1], queued[t := false], queued', t)
    requires u < g.Size() && arrived[g.owner[u]] && g.ModeOf(u) == NonStreaming
    ensures PredsDone(g, iter[t := iter[t] + 1], u) ==> queued'[u] || iter[t := iter[t] + 1][u] >= 1
  {
    if u != t && PredsDone(g, iter[t := iter[t] + 1], u) && !PredsDone(g, iter, u) {
      LastPredDone(g, iter, queued, arrived, t, u);
      AllOneMeansOk(g, iter[t := iter[t] + 1], u);
    }
  }

  lemma DrainKeepsWake(g: Graph, iter: seq<nat>, queued: seq<bool>, arrived: seq<bool>, t: nat, queued': seq<bool>,
                       u: nat)
    requires g.WellFormed() && |iter| == |queued| == |queued'| == g.Size() && |arrived| == |g.apps|
    requires CounterInv(g, iter, queued, arrived) && t < g.Size() && queued[t]
    requires WokenWith(g, iter[t := iter[t] + 1], queued[t := false], queued', t)
    requires u < g.Size() && arrived[g.owner[u]] && g.ModeOf(u) == NonStreaming
    ensures queued'[u] || iter[t := iter[t] + 1][u] >= 1 <==> PredsDone(g, iter[t := iter[t] + 1], u)
  {
    DrainWakesRightly(g, iter, queued, t, queued', u);
    DrainWakesAll(g, iter, queued, arrived, t, queued', u);
  }

  lemma GuardMeansDone(g: Graph, iter: seq<nat>, u: nat)
    requires g.Shaped() && |iter| == g.Size() && u < g.Size() && g.ModeOf(u) == NonStreaming
    ensures PredOk(g, iter, u) ==> PredsDone(g, iter, u)
  {
    if PredOk(g, iter, u) {
      forall k | 0 <= k < |g.Pred(u)|
        ensures iter[g.Pred(u)[k]] >= 1
      {
        assert PredGuard(g.ModeOf(u), g.Head(u), iter[g.Pred(u)[k]], iter[u]);
      }
    }
  }

  lemma DrainKeepsCounters(g: Graph, iter: seq<nat>, queued: seq<bool>, arrived: seq<bool>, t: nat, queued': seq<bool>)
    requires g.WellFormed() && |iter| == |queued| == |queued'| == g.Size() && |arrived| == |g.apps|
    requires CounterInv(g, iter, queued, arrived) && t < g.Size() && queued[t]
    requires WokenWith(g, iter[t := iter[t] + 1], queued[t := false], queued', t)
    ensures CounterInv(g, iter[t := iter[t] + 1], queued', arrived)
  {
    var iter' := iter[t := iter[t] + 1];
    DrainKeepsEdges(g, iter, queued, t);
    DrainKeepsLimits(g, iter, queued, arrived, t, queued');
    assert g.ModeOf(t) == NonStreaming ==> g.Cap(t) == 1;
    WakeKeepsEdges(g, iter', queued[t := false], queued', t);
    forall u | 0 <= u < g.Size() && arrived[g.owner[u]] && g.ModeOf(u) == NonStreaming
      ensures queued'[u] || iter'[u] >= 1 <==> PredsDone(g, iter', u)
    {
      DrainKeepsWake(g, iter, queued, arrived, t, queued', u);
    }
  }
}
