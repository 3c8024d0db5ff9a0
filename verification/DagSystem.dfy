/** The DAG runtime as a transition system: one step per critical section of the daemon or of a
    worker thread, over any graph, any number of PEs and any interleaving. */
module DagSystem {
  import opened Basics
  import opened Bits
  import opened DagGraph

  /** pes: number of PEs; canRun[t]: PEs whose type task t supports; queueing: the daemon's
      queueing mode; counts: whether the policy maintains free_resource_count (SIMPLE, RANDOM, MET,
      EFT, ETF do; HEFT_RT does not). */
  datatype Config = Config(pes: nat, canRun: seq<set<nat>>, queueing: bool, counts: bool) {
    ghost predicate For(g: Graph) {
      && |canRun| == g.Size()
      && forall t, pe :: 0 <= t < |canRun| && pe in canRun[t] ==> pe < pes
    }
  }

  /** iter and queued are the tasks' iter and in_ready_queue fields; ready, todo, slot, done the
      ready queue and each PE's todo deque, running task and completed deque; count and retired the
      applications' completed_task_count and the order of entry into completed_apps; free is
      free_resource_count. handed and drained are histories: what was ever pushed to a PE's todo
      deque and popped from its completed deque. */
  datatype State = State(iter: seq<nat>, queued: seq<bool>,
                         ready: seq<nat>, todo: seq<seq<nat>>, slot: seq<Option<nat>>, done: seq<seq<nat>>,
                         arrived: seq<bool>, count: seq<nat>, retired: seq<nat>, free: int,
                         handed: seq<seq<nat>>, drained: seq<seq<nat>>) {

    ghost predicate Fits(g: Graph, c: Config) {
      && |iter| == |queued| == g.Size()
      && |todo| == |slot| == |done| == |handed| == |drained| == c.pes
      && |arrived| == |count| == |g.apps|
      && (forall k :: 0 <= k < |ready| ==> ready[k] < g.Size())
      && (forall pe :: 0 <= pe < c.pes ==> InRange(todo[pe], g.Size()) && InRange(done[pe], g.Size()))
      && (forall pe :: 0 <= pe < c.pes && slot[pe].Some? ==> slot[pe].value < g.Size())
      && (forall k :: 0 <= k < |retired| ==> retired[k] < |g.apps|)
    }

    /** The test made under the PE's mutex in non-queued mode. */
    predicate Idle(pe: nat)
      requires pe < |todo| && pe < |slot| && pe < |done|
    {
      todo[pe] == [] && slot[pe].None? && done[pe] == []
    }
  }

  ghost predicate InRange(s: seq<nat>, n: nat) {
    forall k :: 0 <= k < |s| ==> s[k] < n
  }

  datatype Step = Arrive(app: nat) | Queue(task: nat) | Assign(index: nat, pe: nat) | Take(pe: nat) | Finish(pe: nat)
                | Drain(pe: nat)

  function Init(g: Graph, c: Config): State {
    State(seq(g.Size(), _ => 0), seq(g.Size(), _ => false),
          [], seq(c.pes, _ => []), seq(c.pes, _ => None), seq(c.pes, _ => []),
          seq(|g.apps|, _ => false), seq(|g.apps|, _ => 0), [], c.pes,
          seq(c.pes, _ => []), seq(c.pes, _ => []))
  }

  /** Tasks of application a among the first n whose predecessor guard holds: pushed on arrival. */
  function Arriving(g: Graph, iter: seq<nat>, a: nat, n: nat): (r: seq<nat>)
    requires g.Shaped() && |iter| == g.Size() && n <= g.Size()
    ensures forall t: nat :: t in r <==> t < n && g.owner[t] == a && PredOk(g, iter, t)
  {
    if n == 0 then []
    else Arriving(g, iter, a, n - 1) + if g.owner[n - 1] == a && PredOk(g, iter, n - 1) then [n - 1] else []
  }

  /** Successors pushed when a non-streaming task is drained: the guard holds and the task is not
      in the ready queue, looking at each list entry in turn. */
  function Woken(g: Graph, iter: seq<nat>, queued: seq<bool>, succ: seq<nat>): (r: seq<nat>)
    requires g.Shaped() && |iter| == |queued| == g.Size() && InRange(succ, g.Size())
    ensures InRange(r, g.Size())
    decreases |succ|
  {
    if succ == [] then []
    else
      var s := succ[0];
      if PredOk(g, iter, s) && !queued[s] then [s] + Woken(g, iter, queued[s := true], succ[1..])
      else Woken(g, iter, queued, succ[1..])
  }

  /** queued with the entries of list set. */
  function Marked(queued: seq<bool>, list: seq<nat>): (r: seq<bool>)
    ensures |r| == |queued|
  {
    seq(|queued|, t requires 0 <= t < |queued| => queued[t] || t in list)
  }

  function TaskCount(g: Graph, a: nat, n: nat): nat
    requires n <= g.Size()
  {
    if n == 0 then 0 else TaskCount(g, a, n - 1) + if g.owner[n - 1] == a then 1 else 0
  }

  /** The completed_task_count at which the application is retired. */
  function Total(g: Graph, a: nat): nat
    requires a < |g.apps|
  {
    TaskCount(g, a, g.Size()) * g.Target(a)
  }

  ghost predicate Enabled(g: Graph, c: Config, s: State, step: Step)
    requires g.Shaped() && c.For(g) && s.Fits(g, c)
  {
    match step
    case Arrive(a) => a < |g.apps| && !s.arrived[a]
    case Queue(t) =>
      && t < g.Size() && s.arrived[g.owner[t]] && g.owner[t] !in s.retired && g.ModeOf(t) != NonStreaming
      && !s.queued[t] && s.iter[t] < g.apps[g.owner[t]].frames
      && PredOk(g, s.iter, t) && SuccOk(g, s.iter, t)
    case Assign(i, pe) =>
      i < |s.ready| && pe in c.canRun[s.ready[i]] && (c.queueing || s.Idle(pe))
    case Take(pe) => pe < c.pes && s.todo[pe] != [] && s.slot[pe].None?
    case Finish(pe) => pe < c.pes && s.slot[pe].Some?
    case Drain(pe) => pe < c.pes && s.done[pe] != []
  }

  function Push(s: State, list: seq<nat>): State {
    s.(ready := s.ready + list, queued := Marked(s.queued, list))
  }

  /** A non-streaming task wakes its successors. */
  function Wake(g: Graph, s: State, t: nat): State
    requires g.Shaped() && t < g.Size() && |s.iter| == |s.queued| == g.Size()
  {
    if g.ModeOf(t) == NonStreaming then Push(s, Woken(g, s.iter, s.queued, g.Succ(t))) else s
  }

  /** The drained task's own fields and its application's counter. */
  function Counted(g: Graph, s: State, t: nat): State
    requires g.Shaped() && t < g.Size() && |s.iter| == |s.queued| == g.Size() && |s.count| == |g.apps|
  {
    s.(iter := s.iter[t := s.iter[t] + 1], queued := s.queued[t := false],
       count := s.count[g.owner[t] := s.count[g.owner[t]] + 1])
  }

  /** Entry into completed_apps when the counter has reached its total. */
  function Retire(g: Graph, s: State, a: nat): State
    requires a < |s.count| == |g.apps|
  {
    if s.count[a] == Total(g, a) then s.(retired := s.retired + [a]) else s
  }

  /** The part of draining that belongs to the task and its application. */
  function Completed(g: Graph, s: State, t: nat): State
    requires g.Shaped() && t < g.Size() && |s.iter| == |s.queued| == g.Size() && |s.count| == |g.apps|
  {
    Retire(g, Wake(g, Counted(g, s, t), t), g.owner[t])
  }

  /** The part of draining that belongs to the PE. */
  function Popped(c: Config, s: State, pe: nat): State
    requires pe < |s.done| == |s.drained| && s.done[pe] != []
  {
    s.(done := s.done[pe := s.done[pe][1..]], drained := s.drained[pe := s.drained[pe] + [s.done[pe][0]]],
       free := s.free + if c.queueing then 0 else 1)
  }

  ghost function Apply(g: Graph, c: Config, s: State, step: Step): State
    requires g.Shaped() && c.For(g) && s.Fits(g, c) && Enabled(g, c, s, step)
  {
    match step
    case Arrive(a) => Push(s, Arriving(g, s.iter, a, g.Size())).(arrived := s.arrived[a := true])
    case Queue(t) => Push(s, [t])
    case Assign(i, pe) =>
      var t := s.ready[i];
      s.(ready := Without(s.ready, i), todo := s.todo[pe := s.todo[pe] + [t]],
         handed := s.handed[pe := s.handed[pe] + [t]],
         free := s.free - if c.counts && !c.queueing then 1 else 0)
    case Take(pe) =>
      s.(slot := s.slot[pe := Some(s.todo[pe][0])], todo := s.todo[pe := s.todo[pe][1..]])
    case Finish(pe) =>
      s.(done := s.done[pe := s.done[pe] + [s.slot[pe].value]], slot := s.slot[pe := None])
    case Drain(pe) =>
      Completed(g, Popped(c, s, pe), s.done[pe][0])
  }

  lemma {:induction false} WokenExactly(g: Graph, iter: seq<nat>, queued: seq<bool>, succ: seq<nat>)
    requires g.Shaped() && |iter| == |queued| == g.Size() && InRange(succ, g.Size())
    ensures var r := Woken(g, iter, queued, succ);
            forall t: nat :: (t in r <==> t in succ && t < g.Size() && PredOk(g, iter, t) && !queued[t])
                             && multiset(r)[t] <= 1
    decreases |succ|
  {
    if succ != [] {
      var s := succ[0];
      assert succ == [s] + succ[1..];
      if PredOk(g, iter, s) && !queued[s] {
        var rest := Woken(g, iter, queued[s := true], succ[1..]);
        WokenExactly(g, iter, queued[s := true], succ[1..]);
        assert multiset([s] + rest) == multiset{s} + multiset(rest);
      } else {
        WokenExactly(g, iter, queued, succ[1..]);
      }
    }
  }

  lemma {:induction false} ArrivingOnce(g: Graph, iter: seq<nat>, a: nat, n: nat)
    requires g.Shaped() && |iter| == g.Size() && n <= g.Size()
    ensures forall t: nat :: multiset(Arriving(g, iter, a, n))[t] <= 1
  {
    if n != 0 {
      var r := Arriving(g, iter, a, n - 1);
      ArrivingOnce(g, iter, a, n - 1);
      var last: nat := n - 1;
      assert last !in r;
      assert last !in multiset(r);
    }
  }

  /** Completing a task leaves every PE-side field alone. */
  lemma CompletedKeeps(g: Graph, s: State, t: nat)
    requires g.Shaped() && t < g.Size() && |s.iter| == |s.queued| == g.Size() && |s.count| == |g.apps|
    ensures var s' := Completed(g, s, t);
            && s'.todo == s.todo && s'.slot == s.slot && s'.done == s.done && s'.handed == s.handed
            && s'.drained == s.drained && s'.free == s.free && s'.arrived == s.arrived
            && |s'.iter| == |s'.queued| == g.Size() && |s'.count| == |g.apps|
  {
  }

  lemma CompletedFits(g: Graph, c: Config, s: State, t: nat)
    requires g.WellFormed() && s.Fits(g, c) && t < g.Size()
    ensures Completed(g, s, t).Fits(g, c)
  {
    CompletedKeeps(g, s, t);
    var s' := Completed(g, s, t);
    assert InRange(s.ready, g.Size()) && InRange(s'.ready, g.Size());
  }

  lemma StepFits(g: Graph, c: Config, s: State, step: Step)
    requires g.WellFormed() && c.For(g) && s.Fits(g, c) && Enabled(g, c, s, step)
    ensures Apply(g, c, s, step).Fits(g, c)
  {
    match step
    case Arrive(a) =>
      ArrivingInRange(g, s.iter, a);
    case Drain(pe) =>
      PoppedFits(g, c, s, pe);
      CompletedFits(g, c, Popped(c, s, pe), s.done[pe][0]);
    case _ =>
  }

  lemma ArrivingInRange(g: Graph, iter: seq<nat>, a: nat)
    requires g.Shaped() && |iter| == g.Size()
    ensures InRange(Arriving(g, iter, a, g.Size()), g.Size())
  {
    var list := Arriving(g, iter, a, g.Size());
    forall k | 0 <= k < |list|
      ensures list[k] < g.Size()
    {
      assert list[k] in list;
    }
  }

  lemma PoppedFits(g: Graph, c: Config, s: State, pe: nat)
    requires s.Fits(g, c) && pe < c.pes && s.done[pe] != []
    ensures Popped(c, s, pe).Fits(g, c) && s.done[pe][0] < g.Size()
  {
    assert InRange(s.done[pe], g.Size());
  }
}
