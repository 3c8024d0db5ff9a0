/** The API runtime as a transition system: applications that count, push and wait, the daemon's loop,
    the worker threads, and the shutdown handshake. Each step is one mutex section or one unshared
    action of one thread. */
module ApiLifecycle {
  import opened Basics
  import opened Bits

  /** A kernel call: the application that made it and its number there. */
  datatype Call = Call(app: nat, id: nat)

  /** Waiting: not launched. Live: its main function runs. Counted: inside enqueue_kernel, after
      task_count++ and before the push, with the new node's number. Poisoned: its pill is queued.
      Freed: joined and freed. */
  datatype Phase = Waiting | Live | Counted(id: nat) | Poisoned | Freed

  datatype App = App(phase: Phase, count: nat, completed: nat) {
    /** Calls that have reached the ready queue. */
    function Pushed(): int { if phase.Counted? then count - 1 else count }
  }

  /** Serving: the main loop. Stopping(i, seen): the exit loop has told PEs below i to exit and has, if
      seen, found PE i idle. */
  datatype Daemon = Serving | Stopping(pe: nat, seen: bool)

  const IDLE: nat := 0
  const RUNNING: nat := 1
  const EXIT: nat := 3

  /** handed and executed are logs per PE, logged is the trace log; the other fields are the runtime's. */
  datatype State = State(
    apps: seq<App>,
    ready: seq<Call>,
    todo: seq<seq<Call>>,
    slot: seq<Option<Call>>,
    done: seq<seq<Call>>,
    resource: seq<nat>,
    alive: seq<bool>,
    poison: seq<nat>,
    daemon: Daemon,
    logged: seq<Call>,
    handed: seq<seq<Call>>,
    executed: seq<seq<Call>>)
  {
    /** Every call is by some application. */
    predicate Known(calls: seq<Call>) {
      forall i :: 0 <= i < |calls| ==> calls[i].app < |apps|
    }

    predicate Fits(pes: nat) {
      && |todo| == |slot| == |done| == |resource| == |alive| == |handed| == |executed| == pes
      && (forall i :: 0 <= i < |poison| ==> poison[i] < |apps|)
      && Known(ready) && (forall pe :: 0 <= pe < pes ==> Known(todo[pe]) && Known(done[pe]))
      && (forall pe :: 0 <= pe < pes && slot[pe].Some? ==> slot[pe].value.app < |apps|)
      && (daemon.Stopping? ==> daemon.pe <= pes && (daemon.seen ==> daemon.pe < pes))
    }
  }

  datatype Step =
    | Launch(a: nat)
    | Count(a: nat)
    | Push(a: nat)
    | Pill(a: nat)
    | Assign(i: nat, pe: nat)
    | Take(pe: nat)
    | Finish(pe: nat)
    | Drain(pe: nat)
    | Reap(k: nat)
    | BeginStop
    | Observe
    | SetExit
    | Exit(pe: nat)

  predicate Init(s: State, pes: nat) {
    && s.Fits(pes) && s.ready == [] && s.poison == [] && s.logged == [] && s.daemon == Serving
    && (forall a :: 0 <= a < |s.apps| ==> s.apps[a] == App(Waiting, 0, 0))
    && (forall pe :: 0 <= pe < pes ==> Fresh(s, pe))
  }

  predicate Fresh(s: State, pe: nat)
    requires pe < |s.todo| == |s.slot| == |s.done| == |s.resource| == |s.alive| == |s.handed| == |s.executed|
  {
    && s.todo[pe] == [] && s.slot[pe] == None && s.done[pe] == [] && s.handed[pe] == [] && s.executed[pe] == []
    && s.resource[pe] == IDLE && s.alive[pe]
  }

  predicate InPhase(s: State, a: nat, p: Phase) {
    a < |s.apps| && s.apps[a].phase == p
  }

  predicate Enabled(s: State, pes: nat, step: Step)
    requires s.Fits(pes)
  {
    match step
    case Launch(a) => s.daemon == Serving && InPhase(s, a, Waiting)
    case Count(a) => InPhase(s, a, Live)
    case Push(a) => a < |s.apps| && s.apps[a].phase.Counted?
    case Pill(a) => InPhase(s, a, Live)
    case Assign(i, pe) => s.daemon == Serving && i < |s.ready| && pe < pes
    case Take(pe) => pe < pes && s.alive[pe] && s.slot[pe] == None && s.todo[pe] != []
    case Finish(pe) => pe < pes && s.slot[pe] != None
    case Drain(pe) => s.daemon == Serving && pe < pes && s.done[pe] != []
    case Reap(k) => s.daemon == Serving && k < |s.poison| && s.apps[s.poison[k]].completed == s.apps[s.poison[k]].count
    case BeginStop => s.daemon == Serving
    case Observe =>
      && s.daemon.Stopping? && s.daemon.pe < pes && !s.daemon.seen
      && s.todo[s.daemon.pe] == [] && s.resource[s.daemon.pe] == IDLE
    case SetExit => s.daemon.Stopping? && s.daemon.seen
    case Exit(pe) => pe < pes && s.alive[pe] && s.slot[pe] == None && s.todo[pe] == [] && s.resource[pe] == EXIT
  }

  function WithApp(s: State, a: nat, app: App): State
    requires a < |s.apps|
  {
    s.(apps := s.apps[a := app])
  }

  function Apply(s: State, pes: nat, step: Step): State
    requires s.Fits(pes) && Enabled(s, pes, step)
  {
    match step
    case Launch(a) => WithApp(s, a, s.apps[a].(phase := Live))
    case Count(a) => WithApp(s, a, s.apps[a].(phase := Counted(s.apps[a].count), count := s.apps[a].count + 1))
    case Push(a) =>
      WithApp(s, a, s.apps[a].(phase := Live)).(ready := s.ready + [Call(a, s.apps[a].phase.id)])
    case Pill(a) => WithApp(s, a, s.apps[a].(phase := Poisoned)).(poison := s.poison + [a])
    case Assign(i, pe) =>
      var t := s.ready[i];
      s.(ready := Without(s.ready, i), todo := s.todo[pe := s.todo[pe] + [t]],
         handed := s.handed[pe := s.handed[pe] + [t]])
    case Take(pe) =>
      s.(slot := s.slot[pe := Some(s.todo[pe][0])], todo := s.todo[pe := s.todo[pe][1..]],
         resource := s.resource[pe := RUNNING])
    case Finish(pe) =>
      var t := s.slot[pe].value;
      s.(done := s.done[pe := s.done[pe] + [t]], slot := s.slot[pe := None], resource := s.resource[pe := IDLE],
         executed := s.executed[pe := s.executed[pe] + [t]])
    case Drain(pe) =>
      var t := s.done[pe][0];
      WithApp(s, t.app, s.apps[t.app].(completed := s.apps[t.app].completed + 1))
        .(done := s.done[pe := s.done[pe][1..]], logged := s.logged + [t])
    case Reap(k) =>
      var a := s.poison[k];
      WithApp(s, a, s.apps[a].(phase := Freed)).(poison := Without(s.poison, k))
    case BeginStop => s.(daemon := Stopping(0, false))
    case Observe => s.(daemon := Stopping(s.daemon.pe, true))
    case SetExit => s.(resource := s.resource[s.daemon.pe := EXIT], daemon := Stopping(s.daemon.pe + 1, false))
    case Exit(pe) => s.(alive := s.alive[pe := false])
  }

  // ---- counting calls ----

  function Of(p: Call -> bool, s: seq<Call>): nat {
    if s == [] then 0 else Of(p, s[..|s| - 1]) + if p(s[|s| - 1]) then 1 else 0
  }

  function OfSlot(p: Call -> bool, c: Option<Call>): nat {
    if c.Some? && p(c.value) then 1 else 0
  }

  /** Calls on the first n PEs: waiting, running or completed and not yet drained. */
  function OnPes(p: Call -> bool, todo: seq<seq<Call>>, slot: seq<Option<Call>>, done: seq<seq<Call>>, n: nat): nat
    requires n <= |todo| == |slot| == |done|
  {
    if n == 0 then 0
    else OnPes(p, todo, slot, done, n - 1) + Of(p, todo[n - 1]) + OfSlot(p, slot[n - 1]) + Of(p, done[n - 1])
  }

  function InFlight(p: Call -> bool, s: State): nat
    requires |s.todo| == |s.slot| == |s.done|
  {
    Of(p, s.ready) + OnPes(p, s.todo, s.slot, s.done, |s.todo|)
  }

  function ByApp(a: nat): Call -> bool { (c: Call) => c.app == a }

  function Exactly(x: Call): Call -> bool { (c: Call) => c == x }

  lemma OfOneMore(p: Call -> bool, s: seq<Call>, c: Call)
    ensures Of(p, s + [c]) == Of(p, s) + if p(c) then 1 else 0
  {
    assert (s + [c])[..|s|] == s;
  }

  lemma {:induction false} OfWithout(p: Call -> bool, s: seq<Call>, i: nat)
    requires i < |s|
    ensures Of(p, s) == Of(p, Without(s, i)) + if p(s[i]) then 1 else 0
  {
    var last := |s| - 1;
    if i < last {
      OfWithout(p, s[..last], i);
      assert Without(s, i)[..last - 1] == Without(s[..last], i);
      assert Without(s, i)[last - 1] == s[last];
    } else {
      assert Without(s, i) == s[..last];
    }
  }

  lemma OfTail(p: Call -> bool, s: seq<Call>)
    requires s != []
    ensures Of(p, s) == Of(p, s[1..]) + if p(s[0]) then 1 else 0
  {
    OfWithout(p, s, 0);
    assert Without(s, 0) == s[1..];
  }

  lemma {:induction false} OfNone(p: Call -> bool, s: seq<Call>, c: Call)
    requires c in s && p(c)
    ensures Of(p, s) > 0
  {
    if c != s[|s| - 1] {
      OfNone(p, s[..|s| - 1], c);
    }
  }

  lemma {:induction false} OnPesSplit(p: Call -> bool, todo: seq<seq<Call>>, slot: seq<Option<Call>>,
                                      done: seq<seq<Call>>, n: nat, pe: nat)
    requires pe < n <= |todo| == |slot| == |done|
    ensures Of(p, todo[pe]) + OfSlot(p, slot[pe]) + Of(p, done[pe]) <= OnPes(p, todo, slot, done, n)
  {
    if pe < n - 1 {
      OnPesSplit(p, todo, slot, done, n - 1, pe);
    }
  }

  /** Changing what one PE holds changes the sum by as much. */
  lemma {:induction false} OnPesUpdate(p: Call -> bool, todo: seq<seq<Call>>, slot: seq<Option<Call>>,
                                       done: seq<seq<Call>>, pe: nat, t: seq<Call>, c: Option<Call>, d: seq<Call>,
                                       n: nat)
    requires pe < |todo| == |slot| == |done| && n <= |todo|
    ensures OnPes(p, todo[pe := t], slot[pe := c], done[pe := d], n)
         == OnPes(p, todo, slot, done, n)
            + if pe >= n then 0
              else Of(p, t) + OfSlot(p, c) + Of(p, d) - Of(p, todo[pe]) - OfSlot(p, slot[pe]) - Of(p, done[pe])
  {
    if n != 0 {
      OnPesUpdate(p, todo, slot, done, pe, t, c, d, n - 1);
    }
  }

  // ---- what each step does to the count ----

  function Pushes(p: Call -> bool, s: State, pes: nat, step: Step): nat
    requires s.Fits(pes) && Enabled(s, pes, step)
  {
    if step.Push? && p(Call(step.a, s.apps[step.a].phase.id)) then 1 else 0
  }

  function Drains(p: Call -> bool, s: State, pes: nat, step: Step): nat
    requires s.Fits(pes) && Enabled(s, pes, step)
  {
    if step.Drain? && p(s.done[step.pe][0]) then 1 else 0
  }

  /** Calls of any kind enter only by Push and leave only by Drain, which logs them. */
  lemma StepConserves(p: Call -> bool, s: State, pes: nat, step: Step)
    requires s.Fits(pes) && Enabled(s, pes, step)
    ensures var s' := Apply(s, pes, step);
            && |s'.todo| == |s'.slot| == |s'.done|
            && InFlight(p, s') == InFlight(p, s) + Pushes(p, s, pes, step) - Drains(p, s, pes, step)
            && Of(p, s'.logged) == Of(p, s.logged) + Drains(p, s, pes, step)
  {
    match step {
      case Push(a) => OfOneMore(p, s.ready, Call(a, s.apps[a].phase.id));
      case Assign(i, pe) => AssignConserves(p, s, pes, i, pe);
      case Take(pe) => TakeConserves(p, s, pes, pe);
      case Finish(pe) => FinishConserves(p, s, pes, pe);
      case Drain(pe) => DrainConserves(p, s, pes, pe);
      case _ =>
    }
  }

  lemma AssignConserves(p: Call -> bool, s: State, pes: nat, i: nat, pe: nat)
    requires s.Fits(pes) && Enabled(s, pes, Assign(i, pe))
    ensures InFlight(p, Apply(s, pes, Assign(i, pe))) == InFlight(p, s)
  {
    var t := s.ready[i];
    OfWithout(p, s.ready, i);
    OfOneMore(p, s.todo[pe], t);
    OnPesUpdate(p, s.todo, s.slot, s.done, pe, s.todo[pe] + [t], s.slot[pe], s.done[pe], pes);
    assert s.slot[pe := s.slot[pe]] == s.slot && s.done[pe := s.done[pe]] == s.done;
  }

  lemma TakeConserves(p: Call -> bool, s: State, pes: nat, pe: nat)
    requires s.Fits(pes) && Enabled(s, pes, Take(pe))
    ensures InFlight(p, Apply(s, pes, Take(pe))) == InFlight(p, s)
  {
    OfTail(p, s.todo[pe]);
    OnPesUpdate(p, s.todo, s.slot, s.done, pe, s.todo[pe][1..], Some(s.todo[pe][0]), s.done[pe], pes);
    assert s.done[pe := s.done[pe]] == s.done;
  }

  lemma FinishConserves(p: Call -> bool, s: State, pes: nat, pe: nat)
    requires s.Fits(pes) && Enabled(s, pes, Finish(pe))
    ensures InFlight(p, Apply(s, pes, Finish(pe))) == InFlight(p, s)
  {
    var t := s.slot[pe].value;
    OfOneMore(p, s.done[pe], t);
    OnPesUpdate(p, s.todo, s.slot, s.done, pe, s.todo[pe], None, s.done[pe] + [t], pes);
    assert s.todo[pe := s.todo[pe]] == s.todo;
  }

  lemma DrainConserves(p: Call -> bool, s: State, pes: nat, pe: nat)
    requires s.Fits(pes) && Enabled(s, pes, Drain(pe))
    ensures var s' := Apply(s, pes, Drain(pe));
            && InFlight(p, s') == InFlight(p, s) - Drains(p, s, pes, Drain(pe))
            && Of(p, s'.logged) == Of(p, s.logged) + Drains(p, s, pes, Drain(pe))
  {
    OfTail(p, s.done[pe]);
    OfOneMore(p, s.logged, s.done[pe][0]);
    OnPesUpdate(p, s.todo, s.slot, s.done, pe, s.todo[pe], s.slot[pe], s.done[pe][1..], pes);
    assert s.todo[pe := s.todo[pe]] == s.todo && s.slot[pe := s.slot[pe]] == s.slot;
  }
}
