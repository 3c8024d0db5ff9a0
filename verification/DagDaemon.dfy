/** The daemon's and the workers' code over the runtime's mutable fields. Every critical section is
    one step of the transition system; trace records them all, and the class invariant says that
    trace leads from the initial state to the present one. The workers act between any two actions
    of the daemon. */
module DagDaemon {
  import opened Basics
  import opened DagGraph
  import opened DagSystem
  import opened DagSafety
  import opened DagRuns
  import opened DagWorkers
  import DagCounting
  import DagTheorems
  import DagProgress

  // ---- marking tasks ----

  lemma NothingMarked(queued: seq<bool>)
    ensures Marked(queued, []) == queued
  {
  }

  lemma MarkOneMore(queued: seq<bool>, list: seq<nat>, t: nat)
    requires t < |queued|
    ensures Marked(queued, list)[t := true] == Marked(queued, list + [t])
  {
  }

  lemma MarkOne(queued: seq<bool>, t: nat)
    requires t < |queued|
    ensures Marked(queued, [t]) == queued[t := true]
  {
  }

  lemma MarkTwice(queued: seq<bool>, first: seq<nat>, second: seq<nat>)
    ensures Marked(Marked(queued, first), second) == Marked(queued, first + second)
  {
  }

  /** One more task looked at on arrival. */
  lemma ArrivingMore(g: Graph, iter: seq<nat>, a: nat, i: nat, ready: seq<nat>, queued: seq<bool>)
    requires g.Shaped() && |iter| == g.Size() && i < g.Size()
    ensures var list := Arriving(g, iter, a, i);
            var more := if g.owner[i] == a && PredOk(g, iter, i) then [i] else [];
            && ready + Arriving(g, iter, a, i + 1) == ready + list + more
            && Marked(queued, Arriving(g, iter, a, i + 1)) == Marked(Marked(queued, list), more)
  {
    var list := Arriving(g, iter, a, i);
    var more := if g.owner[i] == a && PredOk(g, iter, i) then [i] else [];
    ConcatAssoc(ready, list, more);
    MarkTwice(queued, list, more);
  }

  // ---- facts about states ----

  lemma AtMostOneDone(g: Graph, c: Config, s: State, pe: nat)
    requires g.WellFormed() && c.For(g) && Inv(g, c, s) && pe < c.pes
    ensures !c.queueing ==> |s.done[pe]| <= 1
  {
    assert !c.queueing ==> DagCounting.Load(s, pe) <= 1;
  }

  lemma {:induction false} SomeFrameDone(g: Graph, iter: seq<nat>, a: nat, n: nat) returns (t: nat)
    requires n <= g.Size() == |iter| && DagCounting.FramesDone(g, iter, a, n) > 0
    ensures t < n && g.owner[t] == a && iter[t] > 0
  {
    t := n - 1;
    if g.owner[n - 1] != a || iter[n - 1] == 0 {
      t := SomeFrameDone(g, iter, a, n - 1);
    }
  }

  lemma RetiredHasArrived(g: Graph, c: Config, s: State, a: nat)
    requires g.WellFormed() && c.For(g) && Inv(g, c, s) && a < |g.apps|
    ensures a in s.retired ==> s.arrived[a]
  {
    if a in s.retired {
      var t := SomeFrameDone(g, s.iter, a, g.Size());
    }
  }

  /** With no PE counted free, all PEs hold something. */
  lemma {:induction false} NoneFree(s: State, n: nat, pe: nat)
    requires n <= |s.todo| == |s.slot| == |s.done| && pe < n && DagCounting.IdleCount(s, n) == 0
    ensures DagCounting.Load(s, pe) > 0
  {
    if pe < n - 1 {
      NoneFree(s, n - 1, pe);
    }
  }

  function Removed(list: seq<nat>, a: nat): (r: seq<nat>)
    ensures forall b: nat :: b in r <==> b in list && b != a
  {
    if list == [] then [] else (if list[0] == a then [] else [list[0]]) + Removed(list[1..], a)
  }

  // ---- traces ----

  datatype Kind = Arrivals | Queues | Drains(pe: nat) | Assigns | Anything

  predicate Is(kind: Kind, step: Step) {
    step.Take? || step.Finish? ||
    match kind
    case Arrivals => step.Arrive?
    case Queues => step.Queue?
    case Drains(pe) => step == Drain(pe)
    case Assigns => step.Assign?
    case Anything => true
  }

  /** What was added to the trace are steps of workers and, of the daemon's, only those of one kind. */
  predicate Since(before: seq<Step>, now: seq<Step>, kind: Kind) {
    before <= now && forall i :: |before| <= i < |now| ==> Is(kind, now[i])
  }

  lemma SinceTwice(a: seq<Step>, b: seq<Step>, d: seq<Step>, kind: Kind)
    requires Since(a, b, kind) && Since(b, d, kind)
    ensures Since(a, d, kind)
  {
  }

  lemma SinceAny(a: seq<Step>, b: seq<Step>, kind: Kind)
    requires Since(a, b, kind)
    ensures Since(a, b, Anything)
  {
  }

  lemma OneStep(a: seq<Step>, step: Step, kind: Kind)
    requires Is(kind, step)
    ensures Since(a, a + [step], kind)
  {
  }

  lemma AssignedOne(a: seq<Step>, b: seq<Step>, i: nat, pe: nat)
    requires Since(a, b, Assigns)
    ensures Since(a, b + [Assign(i, pe)], Assigns)
  {
    OneStep(b, Assign(i, pe), Assigns);
    SinceTwice(a, b, b + [Assign(i, pe)], Assigns);
  }

  /** trace leads from the start to at. */
  ghost predicate History(g: Graph, c: Config, trace: seq<Step>, at: State) {
    g.WellFormed() && c.For(g) && Runs(g, c, Init(g, c), trace, at)
  }

  /** What the runtime has done, and what of the daemon's own variables and of the PEs' histories
      belongs to the state the trace leads to. */
  datatype Log = Log(trace: seq<Step>, ready: seq<nat>, free: int, handed: seq<seq<nat>>, drained: seq<seq<nat>>)

  /** History, field by field. */
  ghost predicate Leads(g: Graph, c: Config, log: Log, iter: seq<nat>, queued: seq<bool>, todo: seq<seq<nat>>,
                        slot: seq<Option<nat>>, done: seq<seq<nat>>, arrived: seq<bool>, count: seq<nat>,
                        retired: seq<nat>)
  {
    History(g, c, log.trace,
            State(iter, queued, log.ready, todo, slot, done, arrived, count, retired, log.free, log.handed,
                  log.drained))
  }

  lemma HistoryKnown(g: Graph, c: Config, trace: seq<Step>, at: State)
    requires History(g, c, trace, at)
    ensures Inv(g, c, at) && DagTheorems.ReachableState(g, c, at)
  {
    Reachable(g, c, trace, at);
  }

  lemma HistoryStep(g: Graph, c: Config, trace: seq<Step>, at: State, step: Step)
    requires History(g, c, trace, at) && at.Fits(g, c) && Enabled(g, c, at, step)
    ensures History(g, c, trace + [step], Apply(g, c, at, step)) && Apply(g, c, at, step).Fits(g, c)
  {
    RunsAppend(g, c, Init(g, c), trace, at, step);
    StepFits(g, c, at, step);
  }

  /** A script of the workers as part of the trace. */
  lemma {:induction false} HistoryWorkers(g: Graph, c: Config, trace: seq<Step>, at: State, script: seq<Step>,
                                          kind: Kind)
    returns (next: seq<Step>)
    requires History(g, c, trace, at) && at.Fits(g, c)
    ensures History(g, c, next, WorkersDo(g, c, at, script)) && Since(trace, next, kind)
    decreases |script|
  {
    next := trace;
    if script != [] {
      var step := script[0];
      TryKeeps(g, c, at, step);
      if (step.Take? || step.Finish?) && Enabled(g, c, at, step) {
        HistoryStep(g, c, trace, at, step);
        OneStep(trace, step, kind);
        next := trace + [step];
      }
      var middle := next;
      next := HistoryWorkers(g, c, middle, TryStep(g, c, at, step), script[1..], kind);
      SinceTwice(trace, middle, next, kind);
    }
  }

  /** streaming holds the arrived streaming applications that are not retired. */
  ghost predicate Lists(g: Graph, arrived: seq<bool>, retired: seq<nat>, streaming: seq<nat>)
    requires |arrived| == |g.apps|
  {
    forall a: nat :: a in streaming <==> a < |g.apps| && arrived[a] && a !in retired && g.apps[a].mode != NonStreaming
  }

  lemma ListsMore(g: Graph, arrived: seq<bool>, retired: seq<nat>, streaming: seq<nat>, a: nat)
    requires |arrived| == |g.apps| && Lists(g, arrived, retired, streaming) && a < |g.apps| && a !in retired
    ensures Lists(g, arrived[a := true], retired, if g.apps[a].mode != NonStreaming then streaming + [a] else streaming)
  {
  }

  lemma ListsLess(g: Graph, arrived: seq<bool>, retired: seq<nat>, streaming: seq<nat>, a: nat)
    requires |arrived| == |g.apps| && Lists(g, arrived, retired, streaming) && a < |g.apps|
    ensures Lists(g, arrived, retired + [a],
                  if g.apps[a].mode != NonStreaming then Removed(streaming, a) else streaming)
  {
  }

  /** others says what the workers do each time the daemon pauses; exec is the table of estimated
      execution times. log.ready and log.free are ready and free as of the last step in log.trace: the daemon
      updates the two by itself, a little before or after the step they belong to. */
  class Runtime {
    const g: Graph
    const c: Config
    const exec: (nat, nat) -> nat
    const others: nat -> seq<Step>
    const clock: nat -> int
    var iter: seq<nat>
    var queued: seq<bool>
    var ready: seq<nat>
    var todo: seq<seq<nat>>
    var slot: seq<Option<nat>>
    var done: seq<seq<nat>>
    var arrived: seq<bool>
    var streaming: seq<nat>      // arrived_streaming_apps
    var count: seq<nat>
    var retired: seq<nat>
    var free: int
    var avail: seq<int>          // thread_avail_time
    var cursor: nat              // SIMPLE's rotating resource index
    var pauses: nat              // how often the workers have had a turn
    ghost var log: Log

    /** The state of the transition system. */
    ghost function At(): State
      reads this
    {
      State(iter, queued, log.ready, todo, slot, done, arrived, count, retired, log.free, log.handed, log.drained)
    }

    ghost predicate Sizes()
      reads this
    {
      && |iter| == |queued| == g.Size() && |arrived| == |count| == |g.apps|
      && |todo| == |slot| == |done| == |log.handed| == |log.drained| == |avail| == c.pes
      && (c.pes > 0 ==> cursor < c.pes)
    }

    /** Member of arrived_streaming_apps. */
    predicate Streaming(a: nat)
      requires a < |arrived| == |g.apps|
      reads this
    {
      arrived[a] && a !in retired && g.apps[a].mode != NonStreaming
    }

    ghost predicate Listed()
      requires |arrived| == |g.apps|
      reads this
    {
      Lists(g, arrived, retired, streaming)
    }

    ghost predicate Tracked()
      reads this
    {
      Sizes() && forall k: nat :: Inspect(k) ==>
        Leads(g, c, log, iter, queued, todo, slot, done, arrived, count, retired) && Listed()
    }

    ghost predicate Valid()
      reads this
    {
      Tracked() && log.ready == ready && log.free == free
    }

    lemma KnownSized()
      requires Tracked()
      ensures Sized(g, c, At()) && g.Shaped() && Listed()
    {
      assert Inspect(0);
      HistoryKnown(g, c, log.trace, At());
    }

    // The log.trace may go on with any step enabled now; the state it then leads to, step by step.

    lemma AdvanceArrive(a: nat)
      requires Tracked() && a < |g.apps| && !arrived[a]
      ensures g.Shaped() && a !in retired && Listed()
      ensures var list := Arriving(g, iter, a, g.Size());
              Leads(g, c, log.(trace := log.trace + [Arrive(a)], ready := log.ready + list), iter, Marked(queued, list),
                    todo, slot, done, arrived[a := true], count, retired)
    {
      Known();
      RetiredHasArrived(g, c, At(), a);
      HistoryStep(g, c, log.trace, At(), Arrive(a));
    }

    lemma AdvanceQueue(t: nat)
      requires Tracked() && g.Shaped() && t < g.Size() && Streaming(g.owner[t]) && !queued[t]
      requires iter[t] < g.apps[g.owner[t]].frames && PredOk(g, iter, t) && SuccOk(g, iter, t)
      ensures Leads(g, c, log.(trace := log.trace + [Queue(t)], ready := log.ready + [t]), iter, queued[t := true],
                    todo, slot, done, arrived, count, retired)
    {
      assert Inspect(0);
      KnownSized();
      MarkOne(queued, t);
      HistoryStep(g, c, log.trace, At(), Queue(t));
    }

    lemma AdvanceAssign(i: nat, pe: nat)
      requires Tracked() && i < |log.ready| && pe < c.pes && log.ready[i] < |c.canRun|
      requires !Refuses(c, Loads(todo, slot, done), log.ready[i], pe)
      ensures Leads(g, c,
                    log.(trace := log.trace + [Assign(i, pe)], ready := Without(log.ready, i),
                         free := log.free - (if c.counts && !c.queueing then 1 else 0),
                         handed := log.handed[pe := log.handed[pe] + [log.ready[i]]]),
                    iter, queued, todo[pe := todo[pe] + [log.ready[i]]], slot, done, arrived, count, retired)
    {
      assert Inspect(0);
      KnownSized();
      RefusesMeansDisabled(g, c, At(), i, pe);
      HistoryStep(g, c, log.trace, At(), Assign(i, pe));
    }

    lemma AdvanceDrain(pe: nat)
      requires Tracked() && pe < c.pes && done[pe] != []
      ensures g.Shaped() && done[pe][0] < g.Size() && Listed()
      ensures History(g, c, log.trace + [Drain(pe)], Completed(g, Popped(c, At(), pe), done[pe][0]))
    {
      assert Inspect(0);
      KnownSized();
      HistoryStep(g, c, log.trace, At(), Drain(pe));
    }

    lemma AdvanceWorkers(script: seq<Step>, kind: Kind) returns (next: seq<Step>)
      requires Tracked()
      ensures Sized(g, c, At()) && History(g, c, next, WorkersDo(g, c, At(), script)) && Since(log.trace, next, kind)
    {
      assert Inspect(0);
      HistoryKnown(g, c, log.trace, At());
      next := HistoryWorkers(g, c, log.trace, At(), script, kind);
    }

    lemma AtMostOne(pe: nat)
      requires Tracked() && pe < c.pes
      ensures !c.queueing ==> |done[pe]| <= 1
    {
      Known();
      AtMostOneDone(g, c, At(), pe);
    }

    lemma Known()
      requires Tracked()
      ensures g.WellFormed() && c.For(g) && Inv(g, c, At()) && Listed() && History(g, c, log.trace, At())
      ensures DagTheorems.ReachableState(g, c, At())
    {
      assert Inspect(0);
      HistoryKnown(g, c, log.trace, At());
    }

    constructor (g: Graph, c: Config, exec: (nat, nat) -> nat, others: nat -> seq<Step>, clock: nat -> int)
      requires g.WellFormed() && c.For(g)
      ensures this.g == g && this.c == c && Valid() && log.trace == [] && At() == Init(g, c)
    {
      this.g, this.c, this.exec, this.others, this.clock := g, c, exec, others, clock;
      iter, queued, ready := seq(g.Size(), _ => 0), seq(g.Size(), _ => false), [];
      todo, slot, done := seq(c.pes, _ => []), seq(c.pes, _ => None), seq(c.pes, _ => []);
      arrived, count, retired, free := seq(|g.apps|, _ => false), seq(|g.apps|, _ => 0), [], c.pes;
      streaming, avail, cursor, pauses := [], seq(c.pes, _ => 0), 0, 0;
      log := Log([], [], c.pes, seq(c.pes, _ => []), seq(c.pes, _ => []));
    }

    // ---- the workers ----

    /** The worker's first critical section. */
    method WorkerTake(pe: nat)
      requires Sized(g, c, At()) && pe < c.pes && slot[pe].None?
      modifies this`todo, this`slot
      ensures At() == if old(todo[pe]) != [] then Apply(g, c, old(At()), Take(pe)) else old(At())
    {
      if todo[pe] != [] {
        var task := todo[pe][0];
        todo := todo[pe := todo[pe][1..]];
        slot := slot[pe := Some(task)];
      }
    }

    /** The worker's second critical section. */
    method WorkerFinish(pe: nat)
      requires Sized(g, c, At()) && pe < c.pes && slot[pe].Some?
      modifies this`done, this`slot
      ensures At() == Apply(g, c, old(At()), Finish(pe))
    {
      done := done[pe := done[pe] + [slot[pe].value]];
      slot := slot[pe := None];
    }

    /** One worker's turn: the step, if it is possible. */
    method WorkerTurn(step: Step)
      requires Sized(g, c, At())
      modifies this`todo, this`slot, this`done
      ensures At() == TryStep(g, c, old(At()), step)
    {
      match step {
        case Take(pe) =>
          if pe < c.pes && slot[pe].None? {
            WorkerTake(pe);
          }
        case Finish(pe) =>
          if pe < c.pes && slot[pe].Some? {
            WorkerFinish(pe);
          }
        case _ =>
      }
    }

    method WorkersTurn(script: seq<Step>)
      requires Sized(g, c, At())
      modifies this`todo, this`slot, this`done
      ensures At() == WorkersDo(g, c, old(At()), script)
    {
      assert script[0..] == script;
      for k := 0 to |script|
        invariant Sized(g, c, At())
        invariant WorkersDo(g, c, At(), script[k..]) == WorkersDo(g, c, old(At()), script)
      {
        assert script[k..][0] == script[k] && script[k..][1..] == script[k + 1..];
        TryKeeps(g, c, At(), script[k]);
        WorkerTurn(script[k]);
      }
    }

    /** A pause of the daemon. */
    method Pause(ghost kind: Kind)
      requires Tracked()
      modifies this`todo, this`slot, this`done, this`pauses, this`log
      ensures Tracked() && Since(old(log.trace), log.trace, kind) && log == old(log).(trace := log.trace)
      ensures Loads(todo, slot, done) == old(Loads(todo, slot, done))
      ensures forall pe: nat :: pe < c.pes ==> old(done[pe]) <= done[pe]
    {
      ghost var s := At();
      KnownSized();
      ghost var next := AdvanceWorkers(others(pauses), kind);
      WorkersKeep(g, c, s, others(pauses));
      LoadsSame(s, WorkersDo(g, c, s, others(pauses)));
      WorkersTurn(others(pauses));
      log := log.(trace := next);
      pauses := pauses + 1;
    }

    // ---- arrivals ----

    /** An application's arrival: push every task whose predecessor guard holds. */
    method ArriveApp(a: nat)
      requires Valid() && a < |g.apps| && !arrived[a]
      modifies this`ready, this`queued, this`arrived, this`streaming, this`log
      ensures Valid() && log.trace == old(log.trace) + [Arrive(a)] && arrived == old(arrived)[a := true]
    {
      AdvanceArrive(a);
      PushArriving(a);
      Enlist(a);
    }

    /** The list of the kind the application belongs to; only that of the streaming ones is read again. */
    method Enlist(a: nat)
      requires Sizes() && Listed() && a < |g.apps| && a !in retired
      modifies this`arrived, this`streaming, this`log
      ensures Sizes() && Listed() && arrived == old(arrived)[a := true]
      ensures log == old(log).(trace := old(log.trace) + [Arrive(a)], ready := ready)
    {
      ListsMore(g, arrived, retired, streaming, a);
      arrived := arrived[a := true];
      streaming := if g.apps[a].mode != NonStreaming then streaming + [a] else streaming;
      log := log.(trace := log.trace + [Arrive(a)], ready := ready);
    }

    method PushArriving(a: nat)
      requires g.Shaped() && |iter| == |queued| == g.Size()
      modifies this`ready, this`queued
      ensures ready == old(ready) + Arriving(g, iter, a, g.Size())
      ensures queued == Marked(old(queued), Arriving(g, iter, a, g.Size()))
    {
      ghost var was, flags := ready, queued;
      NothingMarked(queued);
      for i := 0 to g.Size()
        invariant |queued| == g.Size()
        invariant ready == was + Arriving(g, iter, a, i) && queued == Marked(flags, Arriving(g, iter, a, i))
      {
        ArrivingMore(g, iter, a, i, was, flags);
        PushIfReady(a, i);
      }
    }

    /** The body of the arrival loop. */
    method PushIfReady(a: nat, i: nat)
      requires g.Shaped() && |iter| == |queued| == g.Size() && i < g.Size()
      modifies this`ready, this`queued
      ensures ready == old(ready) + if g.owner[i] == a && PredOk(g, iter, i) then [i] else []
      ensures queued == Marked(old(queued), if g.owner[i] == a && PredOk(g, iter, i) then [i] else [])
    {
      NothingMarked(queued);
      if g.owner[i] == a {
        var ok := CheckPredComp(g, iter, i);
        if ok {
          MarkOne(queued, i);
          queued := queued[i := true];
          ready := ready + [i];
        }
      }
    }

    method ArriveOne(a: nat)
      requires Valid()
      modifies this`ready, this`queued, this`arrived, this`streaming, this`todo, this`slot, this`done
      modifies this`pauses, this`log
      ensures Valid() && Since(old(log.trace), log.trace, Arrivals)
      ensures arrived == if a < |g.apps| then old(arrived)[a := true] else old(arrived)
    {
      if a < |g.apps| && !arrived[a] {
        OneStep(log.trace, Arrive(a), Arrivals);
        ArriveApp(a);
      }
      Pause(Arrivals);
    }

    /** The applications whose time has come, in order. */
    method ArriveDue(due: seq<nat>)
      requires Valid()
      modifies this`ready, this`queued, this`arrived, this`streaming, this`todo, this`slot, this`done
      modifies this`pauses, this`log
      ensures Valid() && Since(old(log.trace), log.trace, Arrivals)
      ensures forall a: nat :: a < |g.apps| ==> (arrived[a] <==> old(arrived[a]) || a in due)
    {
      for k := 0 to |due|
        invariant Valid() && Since(old(log.trace), log.trace, Arrivals)
        invariant forall a: nat :: a < |g.apps| ==> (arrived[a] <==> old(arrived[a]) || a in due[..k])
      {
        assert due[..k + 1] == due[..k] + [due[k]];
        ArriveOne(due[k]);
      }
      assert due[..|due|] == due;
    }

    // ---- the streaming scan ----

    method QueueTask(t: nat)
      requires g.Shaped() && Valid() && t < g.Size() && Streaming(g.owner[t]) && !queued[t]
      requires iter[t] < g.apps[g.owner[t]].frames && PredOk(g, iter, t) && SuccOk(g, iter, t)
      modifies this`ready, this`queued, this`log
      ensures Valid() && log.trace == old(log.trace) + [Queue(t)] && queued == old(queued)[t := true]
    {
      AdvanceQueue(t);
      ready := ready + [t];
      queued := queued[t := true];
      log := log.(trace := log.trace + [Queue(t)], ready := ready);
    }

    method ScanTask(t: nat)
      requires Valid() && g.Shaped() && t < g.Size() && Streaming(g.owner[t])
      modifies this`ready, this`queued, this`todo, this`slot, this`done, this`pauses, this`log
      ensures Valid() && Since(old(log.trace), log.trace, Queues)
      ensures Scanned(g, iter, queued, t) && OnlyAdded(old(queued), queued)
    {
      if !queued[t] && iter[t] < g.apps[g.owner[t]].frames {
        var predOk := CheckPredComp(g, iter, t);
        var succOk := CheckSuccComp(g, iter, t);
        if predOk && succOk {
          OneStep(log.trace, Queue(t), Queues);
          QueueTask(t);
        }
      }
      Pause(Queues);
    }

    /** The tasks of one application. */
    method ScanApp(a: nat)
      requires Valid() && g.Shaped() && a < |g.apps| && Streaming(a)
      modifies this`ready, this`queued, this`todo, this`slot, this`done, this`pauses, this`log
      ensures Valid() && Since(old(log.trace), log.trace, Queues)
      ensures AppScanned(g, iter, queued, a, g.Size()) && OnlyAdded(old(queued), queued)
    {
      var t := 0;
      while t < g.Size()
        invariant 0 <= t <= g.Size() && Valid() && Since(old(log.trace), log.trace, Queues)
        invariant AppScanned(g, iter, queued, a, t) && OnlyAdded(old(queued), queued)
      {
        if g.owner[t] == a {
          ScanTask(t);
        }
        t := t + 1;
      }
    }

    /** The scan over arrived streaming applications, in the order of their arrival: afterwards no task
        that passes both guards is left unqueued. */
    method ScanStreaming()
      requires Valid()
      modifies this`ready, this`queued, this`todo, this`slot, this`done, this`pauses, this`log
      ensures Valid() && Since(old(log.trace), log.trace, Queues)
      ensures NothingToQueue(g, arrived, retired, iter, queued)
    {
      KnownSized();
      for k := 0 to |streaming|
        invariant Valid() && Since(old(log.trace), log.trace, Queues) && AppsScanned(g, iter, queued, streaming, k)
      {
        ghost var before, flags := log.trace, queued;
        KnownSized();
        assert streaming[k] in streaming;
        ScanApp(streaming[k]);
        SinceTwice(old(log.trace), before, log.trace, Queues);
        OneMoreScanned(g, iter, flags, queued, streaming, k);
      }
      KnownSized();
      AllScanned(g, arrived, retired, iter, queued, streaming);
    }

    // ---- draining ----

    /** Waking the successors of a drained non-streaming task, in list order. */
    method WakeSuccessors(t: nat)
      requires g.Shaped() && t < g.Size() && |iter| == |queued| == g.Size()
      modifies this`ready, this`queued
      ensures ready == old(ready) + Woken(g, iter, old(queued), g.Succ(t))
      ensures queued == Marked(old(queued), Woken(g, iter, old(queued), g.Succ(t)))
    {
      var succ := g.Succ(t);
      ghost var pushed: seq<nat> := [];
      var j := 0;
      assert succ[0..] == succ;
      NothingMarked(queued);
      while j < |succ|
        invariant 0 <= j <= |succ| && |queued| == g.Size()
        invariant Woken(g, iter, old(queued), succ) == pushed + Woken(g, iter, queued, succ[j..])
        invariant ready == old(ready) + pushed && queued == Marked(old(queued), pushed)
      {
        assert succ[j..][0] == succ[j] && succ[j..][1..] == succ[j + 1..];
        var ok := CheckPredComp(g, iter, succ[j]);
        if ok && !queued[succ[j]] {
          MarkOneMore(old(queued), pushed, succ[j]);
          ConcatAssoc(pushed, [succ[j]], Woken(g, iter, queued[succ[j] := true], succ[j + 1..]));
          ConcatAssoc(old(ready), pushed, [succ[j]]);
          queued := queued[succ[j] := true];
          ready := ready + [succ[j]];
          pushed := pushed + [succ[j]];
        }
        j := j + 1;
      }
      assert succ[j..] == [];
    }

    /** task_count of an application. */
    method CountTasks(a: nat) returns (n: nat)
      ensures n == TaskCount(g, a, g.Size())
    {
      n := 0;
      for t := 0 to g.Size()
        invariant n == TaskCount(g, a, t)
      {
        if g.owner[t] == a {
          n := n + 1;
        }
      }
    }

    /** The two completion tests: the task count alone, or times the frame count when streaming. */
    method RetireIfComplete(a: nat)
      requires a < |count| == |g.apps| == |arrived| && Listed()
      modifies this`retired, this`streaming
      ensures retired == (if count[a] == Total(g, a) then old(retired) + [a] else old(retired)) && Listed()
    {
      ListsLess(g, arrived, retired, streaming, a);
      var tasks := CountTasks(a);
      if g.apps[a].mode == NonStreaming {
        if count[a] == tasks {
          retired := retired + [a];
        }
      } else {
        if count[a] == tasks * g.apps[a].frames {
          retired := retired + [a];
          streaming := Removed(streaming, a);
        }
      }
    }

    /** The loop's body: pop the front of the completed deque and account for the task. */
    method DrainFront(pe: nat)
      requires Tracked() && pe < c.pes && done[pe] != [] && ready == log.ready
      modifies this`iter, this`queued, this`ready, this`done, this`count, this`retired, this`streaming, this`log
      ensures Tracked() && ready == log.ready && log.free == old(log.free) + (if c.queueing then 0 else 1)
      ensures log.trace == old(log.trace) + [Drain(pe)]
      ensures done == old(done)[pe := old(done[pe][1..])]
      ensures log.drained == old(log.drained)[pe := old(log.drained[pe]) + [old(done[pe][0])]]
    {
      AdvanceDrain(pe);
      var t := PopFront(pe);
      Account(t);
      log := log.(trace := log.trace + [Drain(pe)], ready := ready);
    }

    method PopFront(pe: nat) returns (t: nat)
      requires Sizes() && pe < c.pes && done[pe] != []
      modifies this`done, this`log
      ensures t == old(done[pe][0]) && done == old(done)[pe := old(done[pe][1..])] && At() == Popped(c, old(At()), pe)
      ensures log == old(log).(drained := log.drained, free := log.free)
      ensures log.free == old(log.free) + (if c.queueing then 0 else 1)
      ensures log.drained == old(log.drained)[pe := old(log.drained[pe]) + [t]]
    {
      t := done[pe][0];
      done := done[pe := done[pe][1..]];
      log := log.(drained := log.drained[pe := log.drained[pe] + [t]], free := log.free + if c.queueing then 0 else 1);
    }

    /** The task's own fields, its successors, and its application. */
    method Account(t: nat)
      requires g.Shaped() && Sizes() && t < g.Size() && Listed() && ready == log.ready
      modifies this`iter, this`queued, this`ready, this`count, this`retired, this`streaming
      ensures At().(ready := ready) == Completed(g, old(At()), t) && Listed()
    {
      ghost var s := At();
      CountTask(t);
      if g.ModeOf(t) == NonStreaming {
        WakeSuccessors(t);
      }
      assert At().(ready := ready) == Wake(g, Counted(g, s, t), t);
      RetireIfComplete(g.owner[t]);
    }

    method CountTask(t: nat)
      requires g.Shaped() && Sizes() && t < g.Size()
      modifies this`iter, this`queued, this`count
      ensures At() == Counted(g, old(At()), t)
    {
      iter := iter[t := iter[t] + 1];
      count := count[g.owner[t] := count[g.owner[t]] + 1];
      queued := queued[t := false];
    }

    /** The drain loop for one PE: exactly the tasks that were complete when the daemon looked, whatever
        the workers complete meanwhile. free_resource_count grows once for the whole loop, which is
        right because a non-queued PE never has more than one completed task. */
    method DrainPe(pe: nat)
      requires Valid() && pe < c.pes
      modifies this`iter, this`queued, this`ready, this`todo, this`slot, this`done, this`count, this`retired
      modifies this`streaming, this`free, this`pauses, this`log
      ensures Valid() && Since(old(log.trace), log.trace, Drains(pe))
      ensures log.drained[pe] == old(log.drained[pe]) + old(done[pe])
    {
      ghost var queue := done[pe];
      var len := |done[pe]|;
      AtMostOne(pe);
      if !c.queueing && len > 0 {
        free := free + 1;
      }
      ghost var rest := queue;
      while len > 0
        invariant Tracked() && ready == log.ready && free == log.free + if !c.queueing && len > 0 then 1 else 0
        invariant Since(old(log.trace), log.trace, Drains(pe)) && (!c.queueing ==> len <= 1)
        invariant |rest| == len && rest <= done[pe] && log.drained[pe] + rest == old(log.drained[pe]) + queue
      {
        ghost var before := log.trace;
        DrainNext(pe, rest);
        SinceTwice(old(log.trace), before, log.trace, Drains(pe));
        rest := rest[1..];
        len := len - 1;
      }
    }

    /** One iteration: rest, still to be drained, stands at the front of the completed deque. */
    method DrainNext(pe: nat, ghost rest: seq<nat>)
      requires Tracked() && pe < c.pes && rest != [] && rest <= done[pe] && ready == log.ready
      modifies this`iter, this`queued, this`ready, this`todo, this`slot, this`done, this`count, this`retired
      modifies this`streaming, this`pauses, this`log
      ensures Tracked() && ready == log.ready && log.free == old(log.free) + (if c.queueing then 0 else 1)
      ensures Since(old(log.trace), log.trace, Drains(pe)) && rest[1..] <= done[pe]
      ensures log.drained[pe] + rest[1..] == old(log.drained[pe]) + rest
    {
      Popping(rest, done[pe], log.drained[pe]);
      OneStep(log.trace, Drain(pe), Drains(pe));
      DrainFront(pe);
      ghost var before := log.trace;
      Pause(Drains(pe));
      SinceTwice(old(log.trace), before, log.trace, Drains(pe));
    }

    /** The loop over the PEs. */
    method DrainAll()
      requires Valid()
      modifies this`iter, this`queued, this`ready, this`todo, this`slot, this`done, this`count, this`retired
      modifies this`streaming, this`free, this`pauses, this`log
      ensures Valid() && Since(old(log.trace), log.trace, Anything)
    {
      for pe := 0 to c.pes
        invariant Valid() && Since(old(log.trace), log.trace, Anything)
      {
        ghost var before := log.trace;
        DrainPe(pe);
        SinceAny(before, log.trace, Drains(pe));
        SinceTwice(old(log.trace), before, log.trace, Anything);
      }
    }

    // ---- scheduling ----

    /** The type test and, without queueing, the test under the PE's mutex. The workers may act right
        after it, and still the answer stands. */
    method Available(t: nat, pe: nat) returns (ok: bool)
      requires Valid() && pe < c.pes && t < |c.canRun|
      modifies this`todo, this`slot, this`done, this`pauses, this`log
      ensures Valid() && Since(old(log.trace), log.trace, Assigns) && log == old(log).(trace := log.trace)
      ensures Loads(todo, slot, done) == old(Loads(todo, slot, done))
      ensures ok == !Refuses(c, Loads(todo, slot, done), t, pe)
    {
      var busy := slot[pe].Some? || |todo[pe]| > 0 || |done[pe]| > 0;
      assert busy <==> Loads(todo, slot, done)[pe] > 0;
      ok := pe in c.canRun[t] && (c.queueing || !busy);
      Pause(Assigns);
    }

    /** attemptToAssignTaskToPE. On success the Assign step has been taken and only the daemon's own
        ready queue and counter are still to follow. */
    method AttemptToAssign(t: nat, pe: nat, now: int, ghost index: nat) returns (ok: bool)
      requires Valid() && pe < c.pes && index < |ready| && ready[index] == t && t < |c.canRun|
      modifies this`todo, this`slot, this`done, this`pauses, this`avail, this`log
      ensures Tracked() && Since(old(log.trace), log.trace, Assigns)
      ensures ok == !old(Refuses(c, Loads(todo, slot, done), t, pe))
      ensures !ok ==> log == old(log).(trace := log.trace) && avail == old(avail)
      ensures !ok ==> Loads(todo, slot, done) == old(Loads(todo, slot, done))
      ensures ok ==> log == old(log).(trace := log.trace, ready := Without(ready, index),
                                      free := free - (if c.counts && !c.queueing then 1 else 0),
                                      handed := old(log.handed)[pe := old(log.handed[pe]) + [t]])
      ensures ok ==> avail == old(avail)[pe := (if now >= old(avail[pe]) then now else old(avail[pe])) + exec(t, pe)]
      ensures ok ==> Loads(todo, slot, done) == old(Loads(todo, slot, done))[pe := old(Loads(todo, slot, done))[pe] + 1]
    {
      ok := Available(t, pe);
      if ok {
        ghost var before := log.trace;
        PushTo(t, pe, now, index);
        AssignedOne(old(log.trace), before, index, pe);
        before := log.trace;
        Pause(Assigns);
        SinceTwice(old(log.trace), before, log.trace, Assigns);
      }
    }

    /** The push and the update of the PE's availability under its mutex. */
    method PushTo(t: nat, pe: nat, now: int, ghost index: nat)
      requires Valid() && pe < c.pes && index < |ready| && ready[index] == t && t < |c.canRun|
      requires !Refuses(c, Loads(todo, slot, done), t, pe)
      modifies this`todo, this`avail, this`log
      ensures Tracked()
      ensures log == old(log).(trace := old(log.trace) + [Assign(index, pe)], ready := Without(ready, index),
                               free := free - (if c.counts && !c.queueing then 1 else 0),
                               handed := old(log.handed)[pe := old(log.handed[pe]) + [t]])
      ensures avail == old(avail)[pe := (if now >= old(avail[pe]) then now else old(avail[pe])) + exec(t, pe)]
      ensures Loads(todo, slot, done) == old(Loads(todo, slot, done))[pe := old(Loads(todo, slot, done))[pe] + 1]
    {
      AdvanceAssign(index, pe);
      LoadsPush(todo, slot, done, pe, t);
      Push(t, pe, now);
      log := log.(trace := log.trace + [Assign(index, pe)], ready := Without(ready, index),
                  free := free - (if c.counts && !c.queueing then 1 else 0),
                  handed := log.handed[pe := log.handed[pe] + [t]]);
    }

    method Push(t: nat, pe: nat, now: int)
      requires pe < |todo| == |avail|
      modifies this`todo, this`avail
      ensures todo == old(todo)[pe := old(todo[pe]) + [t]]
      ensures avail == old(avail)[pe := (if now >= old(avail[pe]) then now else old(avail[pe])) + exec(t, pe)]
    {
      todo := todo[pe := todo[pe] + [t]];
      avail := avail[pe := if now >= avail[pe] then now + exec(t, pe) else avail[pe] + exec(t, pe)];
    }

    /** What SIMPLE does with a task and a PE: the attempt and, if it succeeds, erasing the task and
        counting the PE as used. */
    method AssignAt(index: nat, pe: nat) returns (ok: bool)
      requires Valid() && pe < c.pes && index < |ready| && ready[index] < |c.canRun| && c.counts
      modifies this`ready, this`todo, this`slot, this`done, this`free, this`avail, this`pauses, this`log
      ensures Valid() && Since(old(log.trace), log.trace, Assigns)
      ensures ok == !old(Refuses(c, Loads(todo, slot, done), ready[index], pe))
      ensures ready == if ok then Without(old(ready), index) else old(ready)
      ensures free == old(free) - if ok && !c.queueing then 1 else 0
      ensures Grow(old(Loads(todo, slot, done)), Loads(todo, slot, done))
      ensures !ok ==> Loads(todo, slot, done) == old(Loads(todo, slot, done))
    {
      ok := AttemptToAssign(ready[index], pe, clock(pauses), index);
      if ok {
        ready := Without(ready, index);
        if !c.queueing {
          free := free - 1;
        }
      }
    }

    /** No PE takes any of the first n tasks of the ready queue. */
    ghost predicate NoneTaken(n: nat)
      requires Sizes() && n <= |ready|
      reads this
    {
      AllRefused(c, Loads(todo, slot, done), ready, n)
    }

    method TryNext(index: nat) returns (ok: bool)
      requires Valid() && c.pes > 0 && index < |ready| && ready[index] < |c.canRun| && c.counts
      modifies this`ready, this`todo, this`slot, this`done, this`free, this`avail, this`cursor, this`pauses, this`log
      ensures Valid() && Since(old(log.trace), log.trace, Assigns)
      ensures ok == !old(Refuses(c, Loads(todo, slot, done), ready[index], cursor))
      ensures ready == if ok then Without(old(ready), index) else old(ready)
      ensures free == old(free) - if ok && !c.queueing then 1 else 0
      ensures Grow(old(Loads(todo, slot, done)), Loads(todo, slot, done))
      ensures !ok ==> Loads(todo, slot, done) == old(Loads(todo, slot, done))
      ensures cursor == (old(cursor) + 1) % c.pes
    {
      ok := AssignAt(index, cursor);
      cursor := (cursor + 1) % c.pes;
    }

    /** Offers the task at index to each PE once, going round from the cursor. */
    method OfferAround(index: nat) returns (ok: bool)
      requires Valid() && index < |ready| && ready[index] < |c.canRun| && c.counts
      modifies this`ready, this`todo, this`slot, this`done, this`free, this`avail, this`cursor, this`pauses, this`log
      ensures Valid() && Since(old(log.trace), log.trace, Assigns)
      ensures ready == if ok then Without(old(ready), index) else old(ready)
      ensures Grow(old(Loads(todo, slot, done)), Loads(todo, slot, done))
      ensures !ok ==> NoneTakes(c, Loads(todo, slot, done), ready[index])
      ensures free == old(free) - if ok && !c.queueing then 1 else 0
    {
      ghost var from, loads, t := cursor, Loads(todo, slot, done), ready[index];
      ok := false;
      for tried := 0 to c.pes
        invariant Valid() && Since(old(log.trace), log.trace, Assigns)
        invariant c.pes > 0 ==> cursor == Around(from, tried, c.pes)
        invariant ready == old(ready) && free == old(free) && Loads(todo, slot, done) == loads
        invariant RefusedFrom(c, loads, t, from, tried)
      {
        AroundNext(from, tried, c.pes);
        RefusedMore(c, loads, t, from, tried);
        ghost var before := log.trace;
        ok := TryNext(index);
        SinceTwice(old(log.trace), before, log.trace, Assigns);
        if ok {
          return;
        }
      }
      RefusedByAll(c, loads, t, from);
    }

    /** One task of the walk. */
    method VisitSimple(i: nat) returns (ok: bool, none: bool)
      requires Valid() && i < |ready| && NoneTaken(i) && c.counts
      modifies this`ready, this`todo, this`slot, this`done, this`free, this`avail, this`cursor, this`pauses, this`log
      ensures Valid() && Since(old(log.trace), log.trace, Assigns)
      ensures |ready| == old(|ready|) - if ok then 1 else 0
      ensures NoneTaken(if ok then i else i + 1)
      ensures none == (!c.queueing && free == 0)
    {
      KnownSized();
      assert log.ready[i] < g.Size();
      ghost var queue, loads := ready, Loads(todo, slot, done);
      ok := OfferAround(i);
      none := !c.queueing && free == 0;
      StillNoneTaken(c, loads, Loads(todo, slot, done), queue, ready, i, ok);
    }

    /** SIMPLE: afterwards no PE takes any task that is still in the ready queue. Giving up when
        free_resource_count is 0 leaves nothing out, because the counter is exact. */
    method ScheduleSimple()
      requires Valid() && c.counts
      modifies this`ready, this`todo, this`slot, this`done, this`free, this`avail, this`cursor, this`pauses, this`log
      ensures Valid() && Since(old(log.trace), log.trace, Assigns) && NoneTaken(|ready|)
    {
      var i := 0;
      var none := false;
      while i < |ready| && !none
        invariant Valid() && Since(old(log.trace), log.trace, Assigns) && i <= |ready| && NoneTaken(i)
        invariant none ==> !c.queueing && free == 0
        decreases |ready| - i
      {
        ghost var before := log.trace;
        var ok;
        ok, none := VisitSimple(i);
        SinceTwice(old(log.trace), before, log.trace, Assigns);
        if !ok {
          i := i + 1;
        }
      }
      if none {
        AllBusy();
      }
    }

    lemma AllBusy()
      requires Valid() && !c.queueing && c.counts && free == 0
      ensures NoneTaken(|ready|)
    {
      Known();
      forall k: nat | k < |ready| ensures ready[k] < |c.canRun| && NoneTakes(c, Loads(todo, slot, done), ready[k]) {
        assert log.ready[k] < g.Size();
        forall pe: nat | pe < c.pes ensures Refuses(c, Loads(todo, slot, done), ready[k], pe) {
          NoneFree(At(), c.pes, pe);
        }
      }
    }

    // ---- one pass of the daemon's loop ----

    ghost predicate PesEmpty()
      requires Sizes()
      reads this
    {
      forall pe: nat :: pe < c.pes ==> todo[pe] == [] && slot[pe] == None && done[pe] == []
    }

    /** After a scan and a round nothing is left for the daemon to do; with nothing on the PEs and no
        application to arrive, the whole system is at its end. */
    lemma NothingLeft()
      requires Valid() && NothingToQueue(g, arrived, retired, iter, queued) && NoneTaken(|ready|)
      requires PesEmpty() && forall a: nat :: a < |g.apps| ==> arrived[a]
      ensures Sized(g, c, At()) && DagTheorems.ReachableState(g, c, At()) && DagProgress.Stuck(g, c, At())
    {
      Known();
      forall step ensures !Enabled(g, c, At(), step) {
        NoStep(g, c, At(), step);
      }
    }

    /** One pass: drain, arrivals, scan, SIMPLE, with the workers acting throughout. If it leaves the PEs
        empty although everything has arrived, then every application is complete -- or, and only
        then, the graph is one of those that cannot complete. So as long as a healthy graph has work
        left, each pass leaves some PE with a task. */
    method Pass(due: seq<nat>)
      requires Valid() && c.counts
      modifies this
      ensures Valid() && old(log.trace) <= log.trace
      ensures Sized(g, c, At()) && NothingToQueue(g, arrived, retired, iter, queued) && NoneTaken(|ready|)
      ensures forall a: nat :: a < |g.apps| ==> (arrived[a] <==> old(arrived[a]) || a in due)
      ensures g.Acyclic() && DagProgress.Runnable(g, c) && PesEmpty()
              && (forall a: nat :: a < |g.apps| ==> arrived[a]) ==>
                (DagProgress.AllComplete(g, At()) <==> g.Healthy())
    {
      DrainAll();
      ArriveDue(due);
      ScanStreaming();
      ScheduleSimple();
      KnownSized();
      if g.Acyclic() && DagProgress.Runnable(g, c) && PesEmpty() && forall a: nat :: a < |g.apps| ==> arrived[a] {
        NothingLeft();
        DagProgress.CompletionCriterion(g, c, At());
      }
    }
  }

  // ---- what a round leaves ----

  ghost predicate AllRefused(c: Config, loads: seq<nat>, queue: seq<nat>, n: nat)
    requires n <= |queue|
  {
    forall k: nat :: k < n ==> queue[k] < |c.canRun| && NoneTakes(c, loads, queue[k])
  }

  /** After task i has been offered: taken, and then it is gone, or refused. */
  lemma StillNoneTaken(c: Config, loads: seq<nat>, loads': seq<nat>, queue: seq<nat>, queue': seq<nat>, i: nat,
                       ok: bool)
    requires i < |queue| && queue[i] < |c.canRun| && Grow(loads, loads') && AllRefused(c, loads, queue, i)
    requires queue' == (if ok then Without(queue, i) else queue) && (!ok ==> NoneTakes(c, loads', queue[i]))
    ensures AllRefused(c, loads', queue', if ok then i else i + 1)
  {
    forall k: nat | k < i ensures queue'[k] < |c.canRun| && NoneTakes(c, loads', queue'[k]) {
      StillRefused(c, loads, loads', queue[k]);
    }
  }

  // ---- what a scan leaves ----

  /** Task t needs no (further) push from the scan. */
  ghost predicate Scanned(g: Graph, iter: seq<nat>, queued: seq<bool>, t: nat)
    requires g.Shaped() && t < g.Size() == |iter| == |queued|
  {
    queued[t] || iter[t] >= g.apps[g.owner[t]].frames || !PredOk(g, iter, t) || !SuccOk(g, iter, t)
  }

  ghost predicate AppScanned(g: Graph, iter: seq<nat>, queued: seq<bool>, a: nat, n: nat)
    requires g.Shaped() && n <= g.Size() == |iter| == |queued|
  {
    forall t: nat :: t < n && g.owner[t] == a ==> Scanned(g, iter, queued, t)
  }

  ghost predicate AppsScanned(g: Graph, iter: seq<nat>, queued: seq<bool>, list: seq<nat>, n: nat)
    requires g.Shaped() && g.Size() == |iter| == |queued| && n <= |list|
  {
    forall j: nat :: j < n ==> AppScanned(g, iter, queued, list[j], g.Size())
  }

  predicate OnlyAdded(queued: seq<bool>, queued': seq<bool>) {
    |queued'| == |queued| && forall t :: 0 <= t < |queued| && queued[t] ==> queued'[t]
  }

  lemma OneMoreScanned(g: Graph, iter: seq<nat>, queued: seq<bool>, queued': seq<bool>, list: seq<nat>, k: nat)
    requires g.Shaped() && g.Size() == |iter| == |queued| && OnlyAdded(queued, queued') && k < |list|
    requires AppsScanned(g, iter, queued, list, k) && AppScanned(g, iter, queued', list[k], g.Size())
    ensures AppsScanned(g, iter, queued', list, k + 1)
  {
    forall j: nat | j < k ensures AppScanned(g, iter, queued', list[j], g.Size()) {
      assert AppScanned(g, iter, queued, list[j], g.Size());
    }
  }

  /** Every task of an arrived streaming application that is not retired has been scanned. */
  ghost predicate NothingToQueue(g: Graph, arrived: seq<bool>, retired: seq<nat>, iter: seq<nat>, queued: seq<bool>)
  {
    && g.Shaped() && g.Size() == |iter| == |queued| && |arrived| == |g.apps|
    && forall t: nat :: t < g.Size() && arrived[g.owner[t]] && g.owner[t] !in retired && g.ModeOf(t) != NonStreaming ==>
         Scanned(g, iter, queued, t)
  }

  lemma AllScanned(g: Graph, arrived: seq<bool>, retired: seq<nat>, iter: seq<nat>, queued: seq<bool>, list: seq<nat>)
    requires g.Shaped() && g.Size() == |iter| == |queued| && |arrived| == |g.apps|
    requires AppsScanned(g, iter, queued, list, |list|)
    requires forall a: nat :: a < |g.apps| && arrived[a] && a !in retired && g.apps[a].mode != NonStreaming ==>
             a in list
    ensures NothingToQueue(g, arrived, retired, iter, queued)
  {
    forall t: nat | t < g.Size() && arrived[g.owner[t]] && g.owner[t] !in retired && g.ModeOf(t) != NonStreaming
      ensures Scanned(g, iter, queued, t)
    {
      var j :| 0 <= j < |list| && list[j] == g.owner[t];
      assert AppScanned(g, iter, queued, list[j], g.Size());
    }
  }

  lemma NoQueue(g: Graph, c: Config, s: State, t: nat)
    requires Sized(g, c, s) && NothingToQueue(g, s.arrived, s.retired, s.iter, s.queued)
    ensures !Enabled(g, c, s, Queue(t))
  {
    if t < g.Size() && s.arrived[g.owner[t]] && g.owner[t] !in s.retired && g.ModeOf(t) != NonStreaming {
      assert Scanned(g, s.iter, s.queued, t);
    }
  }

  lemma NoAssign(g: Graph, c: Config, s: State, i: nat, pe: nat)
    requires Sized(g, c, s)
    requires i < |s.ready| ==> s.ready[i] < |c.canRun| && NoneTakes(c, Loads(s.todo, s.slot, s.done), s.ready[i])
    ensures !Enabled(g, c, s, Assign(i, pe))
  {
    if i < |s.ready| && pe < c.pes {
      RefusesMeansDisabled(g, c, s, i, pe);
    }
  }

  lemma NoStep(g: Graph, c: Config, s: State, step: Step)
    requires Sized(g, c, s) && NothingToQueue(g, s.arrived, s.retired, s.iter, s.queued)
    requires AllRefused(c, Loads(s.todo, s.slot, s.done), s.ready, |s.ready|)
    requires forall pe: nat :: pe < c.pes ==> s.todo[pe] == [] && s.slot[pe] == None && s.done[pe] == []
    requires forall a: nat :: a < |g.apps| ==> s.arrived[a]
    ensures !Enabled(g, c, s, step)
  {
    match step {
      case Queue(t) => NoQueue(g, c, s, t);
      case Assign(i, pe) => NoAssign(g, c, s, i, pe);
      case _ =>
    }
  }

  /** Of the tasks that were complete when the loop began, rest is still to come. */
  lemma Popping(rest: seq<nat>, now: seq<nat>, drained: seq<nat>)
    requires rest != [] && rest <= now
    ensures now != [] && now[0] == rest[0] && rest[1..] <= now[1..]
    ensures (drained + [now[0]]) + rest[1..] == drained + rest
  {
    assert rest == [rest[0]] + rest[1..];
  }
}
