/** Task graphs as the DAG front end builds them, and the two guards of the dataflow loop. */
module DagGraph {

  datatype Mode = NonStreaming | SingleBuffer | DoubleBuffer | Sequential

  /** frames is max_stream_frame_count; a non-streaming application ignores it. */
  datatype App = App(mode: Mode, frames: nat)

  /** All tasks of all applications, numbered together: owner, and the predecessor and successor
      lists of the JSON description. */
  datatype Graph = Graph(apps: seq<App>, owner: seq<nat>, preds: seq<seq<nat>>, succs: seq<seq<nat>>) {

    function Size(): nat { |owner| }

    predicate Shaped() {
      && |preds| == |owner| && |succs| == |owner|
      && (forall t :: 0 <= t < |owner| ==> owner[t] < |apps|)
      && (forall t, k :: 0 <= t < |owner| && 0 <= k < |preds[t]| ==> preds[t][k] < |owner|)
      && (forall t, k :: 0 <= t < |owner| && 0 <= k < |succs[t]| ==> succs[t][k] < |owner|)
    }

    /** What the front end relies on: edges stay inside an application, both lists describe the same
        edges, and frame counts are C ints. */
    ghost predicate WellFormed() {
      && Shaped()
      && (forall s, p :: 0 <= s < |owner| && p in preds[s] ==> owner[p] == owner[s] && s in succs[p])
      && (forall p, s :: 0 <= p < |owner| && s in succs[p] ==> p in preds[s])
      && (forall a :: 0 <= a < |apps| ==> apps[a].frames < 0x8000_0000)
    }

    /** order is a topological numbering. */
    ghost predicate Topological(order: seq<nat>)
      requires Shaped()
    {
      && |order| == |owner|
      && (forall t :: 0 <= t < |order| ==> order[t] < |order|)
      && (forall s, p :: 0 <= s < |owner| && p in preds[s] ==> order[p] < order[s])
    }

    ghost predicate Acyclic()
      requires Shaped()
    {
      exists order :: Topological(order)
    }

    function ModeOf(t: nat): Mode
      requires Shaped() && t < Size()
    {
      apps[owner[t]].mode
    }

    predicate Head(t: nat)
      requires Shaped() && t < Size()
    {
      preds[t] == []
    }

    predicate Tail(t: nat)
      requires Shaped() && t < Size()
    {
      succs[t] == []
    }

    /** Heads (or tails) of application a among the first n tasks, in order. */
    function HeadsOf(a: nat, n: nat): (r: seq<nat>)
      requires Shaped() && n <= Size()
      ensures forall t: nat :: t in r <==> t < n && owner[t] == a && Head(t)
    {
      if n == 0 then []
      else HeadsOf(a, n - 1) + if owner[n - 1] == a && Head(n - 1) then [n - 1] else []
    }

    function TailsOf(a: nat, n: nat): (r: seq<nat>)
      requires Shaped() && n <= Size()
      ensures forall t: nat :: t in r <==> t < n && owner[t] == a && Tail(t)
    {
      if n == 0 then []
      else TailsOf(a, n - 1) + if owner[n - 1] == a && Tail(n - 1) then [n - 1] else []
    }

    /** The linked predecessor list: in sequential mode a head waits for all tails. */
    function Pred(t: nat): (r: seq<nat>)
      requires Shaped() && t < Size()
      ensures forall k :: 0 <= k < |r| ==> r[k] < Size()
    {
      if ModeOf(t) == Sequential && Head(t) then
        var tails := TailsOf(owner[t], Size());
        assert forall k :: 0 <= k < |tails| ==> tails[k] in tails;
        tails
      else preds[t]
    }

    /** The linked successor list: in sequential mode a tail feeds all heads. */
    function Succ(t: nat): (r: seq<nat>)
      requires Shaped() && t < Size()
      ensures forall k :: 0 <= k < |r| ==> r[k] < Size()
    {
      if ModeOf(t) == Sequential && Tail(t) then
        var heads := HeadsOf(owner[t], Size());
        assert forall k :: 0 <= k < |heads| ==> heads[k] in heads;
        heads
      else succs[t]
    }

    /** A node that is head and tail at once, which the sequential mode links to itself. */
    predicate HeadTail(t: nat)
      requires Shaped() && t < Size()
    {
      ModeOf(t) == Sequential && Head(t) && Tail(t)
    }

    /** Number of times a task has to run. */
    function Target(a: nat): nat
      requires a < |apps|
    {
      if apps[a].mode == NonStreaming then 1 else apps[a].frames
    }

    /** Most times a task can run: arrival queues a source without looking at the frame count. */
    function Cap(t: nat): nat
      requires Shaped() && t < Size()
    {
      var n := Target(owner[t]);
      if n == 0 then 1 else n
    }

    /** The exact condition under which an application runs to completion. */
    predicate Healthy()
      requires Shaped()
    {
      forall t :: 0 <= t < Size() ==>
        Target(owner[t]) >= 1 && (HeadTail(t) ==> Target(owner[t]) <= 1)
    }
  }

  /** Linked lists mirror each other and stay inside the application. */
  lemma LinksMirror(g: Graph, p: nat, s: nat)
    requires g.WellFormed() && p < g.Size() && s < g.Size()
    ensures p in g.Pred(s) <==> s in g.Succ(p)
    ensures p in g.Pred(s) ==> g.owner[p] == g.owner[s]
  {
    if p in g.Pred(s) && !(g.ModeOf(s) == Sequential && g.Head(s)) {
      assert s in g.succs[p];
    }
    if s in g.Succ(p) && !(g.ModeOf(p) == Sequential && g.Tail(p)) {
      assert p in g.preds[s];
    }
  }

  const TWO64: int := 0x1_0000_0000_0000_0000
  const TWO63: int := 0x8000_0000_0000_0000

  /** An unsigned long long expression cast to long long. */
  function I64(v: int): int {
    var m := v % TWO64;
    if m >= TWO63 then m - TWO64 else m
  }

  /** check_pred_comp for one predecessor. */
  predicate PredGuard(mode: Mode, head: bool, predIter: nat, iter: nat) {
    match mode
    case NonStreaming => predIter == iter + 1
    case SingleBuffer => predIter == iter + 1
    case DoubleBuffer => predIter != iter
    case Sequential => if head then predIter == iter else predIter != iter
  }

  /** check_succ_comp for one successor; the double-buffer test subtracts on unsigned operands. */
  predicate SuccGuard(mode: Mode, tail: bool, succIter: int, iter: int) {
    match mode
    case NonStreaming => succIter == iter
    case SingleBuffer => succIter == iter
    case DoubleBuffer => !(I64(succIter) < I64(iter - 1))
    case Sequential => if tail then succIter == iter + 1 else succIter == iter
  }

  /** The wrap of iter - 1 at frame 0 is harmless: the test means succIter >= iter - 1. */
  lemma DoubleBufferGuard(succIter: nat, iter: nat)
    requires succIter < TWO63 && iter < TWO63
    ensures SuccGuard(DoubleBuffer, false, succIter, iter) <==> succIter + 1 >= iter
    ensures SuccGuard(DoubleBuffer, true, succIter, iter) <==> succIter + 1 >= iter
  {
  }

  predicate PredOk(g: Graph, iter: seq<nat>, t: nat)
    requires g.Shaped() && |iter| == g.Size() && t < g.Size()
  {
    forall k :: 0 <= k < |g.Pred(t)| ==> PredGuard(g.ModeOf(t), g.Head(t), iter[g.Pred(t)[k]], iter[t])
  }

  predicate SuccOk(g: Graph, iter: seq<nat>, t: nat)
    requires g.Shaped() && |iter| == g.Size() && t < g.Size()
  {
    forall k :: 0 <= k < |g.Succ(t)| ==> SuccGuard(g.ModeOf(t), g.Tail(t), iter[g.Succ(t)[k]], iter[t])
  }

  /** check_pred_comp. */
  method CheckPredComp(g: Graph, iter: seq<nat>, t: nat) returns (ok: bool)
    requires g.Shaped() && |iter| == g.Size() && t < g.Size()
    ensures ok == PredOk(g, iter, t)
  {
    var pred, mode, head := g.Pred(t), g.ModeOf(t), g.Head(t);
    for i := 0 to |pred|
      invariant forall k :: 0 <= k < i ==> PredGuard(mode, head, iter[pred[k]], iter[t])
    {
      if mode == NonStreaming || mode == SingleBuffer {
        if iter[pred[i]] != iter[t] + 1 { return false; }
      } else if mode == DoubleBuffer {
        if iter[pred[i]] == iter[t] { return false; }
      } else if head {
        if iter[pred[i]] != iter[t] { return false; }
      } else {
        if iter[pred[i]] == iter[t] { return false; }
      }
    }
    return true;
  }

  /** check_succ_comp. */
  method CheckSuccComp(g: Graph, iter: seq<nat>, t: nat) returns (ok: bool)
    requires g.Shaped() && |iter| == g.Size() && t < g.Size()
    ensures ok == SuccOk(g, iter, t)
  {
    var succ, mode, tail := g.Succ(t), g.ModeOf(t), g.Tail(t);
    for i := 0 to |succ|
      invariant forall k :: 0 <= k < i ==> SuccGuard(mode, tail, iter[succ[k]], iter[t])
    {
      if mode == NonStreaming || mode == SingleBuffer {
        if iter[succ[i]] != iter[t] { return false; }
      } else if mode == DoubleBuffer {
        if I64(iter[succ[i]]) < I64((iter[t] as int) - 1) { return false; }
      } else if tail {
        if iter[succ[i]] != iter[t] + 1 { return false; }
      } else {
        if iter[succ[i]] != iter[t] { return false; }
      }
    }
    return true;
  }
}
