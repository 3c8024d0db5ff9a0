/** What every run of the API runtime keeps, and what follows: applications are freed once, late enough
    and not too late, and the exit handshake loses no work. */
module ApiLifecycleRuns {
  import opened Basics
  import opened Bits
  import opened ApiLifecycle

  // ---- invariants ----

  /** The counters of application a against the calls that exist. */
  ghost predicate CountersAgree(s: State, a: nat)
    requires a < |s.apps| && |s.todo| == |s.slot| == |s.done|
  {
    var app := s.apps[a];
    && InFlight(ByApp(a), s) + app.completed == app.Pushed()
    && app.completed == Of(ByApp(a), s.logged)
    && (app.phase.Counted? ==> app.phase.id + 1 == app.count)
    && (app.phase == Waiting ==> app.count == 0)
    && (app.phase == Freed ==> app.completed == app.count)
  }

  ghost predicate PillAgrees(s: State, a: nat)
    requires a < |s.apps|
  {
    multiset(s.poison)[a] == if s.apps[a].phase == Poisoned then 1 else 0
  }

  /** Call x exists, in flight or logged, exactly once if it has been pushed and else not at all. */
  ghost predicate Once(s: State, x: Call)
    requires |s.todo| == |s.slot| == |s.done|
  {
    InFlight(Exactly(x), s) + Of(Exactly(x), s.logged)
    == if x.app < |s.apps| && x.id < s.apps[x.app].Pushed() then 1 else 0
  }

  /** The daemon has set PE pe's state to 3. */
  predicate Told(s: State, pe: nat) { s.daemon.Stopping? && pe < s.daemon.pe }

  function SlotCalls(c: Option<Call>): seq<Call> { if c.Some? then [c.value] else [] }

  ghost predicate WorkerOk(s: State, pe: nat)
    requires pe < |s.todo| == |s.slot| == |s.done| == |s.resource| == |s.alive| == |s.handed| == |s.executed|
  {
    && s.resource[pe] == (if Told(s, pe) then EXIT else if s.slot[pe].Some? then RUNNING else IDLE)
    && (Told(s, pe) ==> s.slot[pe] == None && s.todo[pe] == [])
    && (s.daemon == Stopping(pe, true) ==> s.slot[pe] == None && s.todo[pe] == [])
    && (!s.alive[pe] ==> Told(s, pe))
    && s.handed[pe] == s.executed[pe] + SlotCalls(s.slot[pe]) + s.todo[pe]
  }

  ghost predicate AppsOk(s: State)
    requires |s.todo| == |s.slot| == |s.done|
  {
    forall a: nat :: a < |s.apps| ==> CountersAgree(s, a) && PillAgrees(s, a)
  }

  ghost predicate CallsOk(s: State)
    requires |s.todo| == |s.slot| == |s.done|
  {
    forall x :: Once(s, x)
  }

  ghost predicate WorkersOk(s: State, pes: nat)
    requires s.Fits(pes)
  {
    forall pe: nat :: pe < pes ==> WorkerOk(s, pe)
  }

  ghost predicate Inv(s: State, pes: nat) {
    s.Fits(pes) && AppsOk(s) && CallsOk(s) && WorkersOk(s, pes)
  }

  // ---- they hold at the start ----

  lemma {:induction false} NothingOnPes(p: Call -> bool, todo: seq<seq<Call>>, slot: seq<Option<Call>>,
                                        done: seq<seq<Call>>, n: nat)
    requires n <= |todo| == |slot| == |done|
    requires forall pe :: 0 <= pe < n ==> todo[pe] == [] && slot[pe] == None && done[pe] == []
    ensures OnPes(p, todo, slot, done, n) == 0
  {
    if n != 0 {
      NothingOnPes(p, todo, slot, done, n - 1);
    }
  }

  lemma InitInv(s: State, pes: nat)
    requires Init(s, pes)
    ensures Inv(s, pes)
  {
    forall pe | 0 <= pe < pes ensures s.todo[pe] == [] && s.slot[pe] == None && s.done[pe] == [] && WorkerOk(s, pe) {
      assert Fresh(s, pe);
    }
    forall a: nat | a < |s.apps| ensures CountersAgree(s, a) && PillAgrees(s, a) {
      NothingOnPes(ByApp(a), s.todo, s.slot, s.done, pes);
      assert s.apps[a] == App(Waiting, 0, 0);
    }
    forall x ensures Once(s, x) {
      NothingOnPes(Exactly(x), s.todo, s.slot, s.done, pes);
      assert x.app < |s.apps| ==> s.apps[x.app] == App(Waiting, 0, 0);
    }
  }

  // ---- every step keeps them ----

  lemma StepFits(s: State, pes: nat, step: Step)
    requires s.Fits(pes) && Enabled(s, pes, step)
    ensures Apply(s, pes, step).Fits(pes) && |Apply(s, pes, step).apps| == |s.apps|
  {
    if step.Assign? || step.Take? || step.Finish? || step.Drain? {
      CallStepFits(s, pes, step);
    }
  }

  lemma CallStepFits(s: State, pes: nat, step: Step)
    requires s.Fits(pes) && Enabled(s, pes, step) && (step.Assign? || step.Take? || step.Finish? || step.Drain?)
    ensures Apply(s, pes, step).Fits(pes) && |Apply(s, pes, step).apps| == |s.apps|
  {
    assert s.Known(s.todo[step.pe]) && s.Known(s.done[step.pe]);
  }

  /** A step's effect on one application's record, in the terms the counts are kept in. */
  ghost predicate RecordMoves(app: App, app': App, pushes: nat, drains: nat, reaps: bool) {
    && app'.Pushed() == app.Pushed() + pushes && app'.completed == app.completed + drains
    && (app'.phase.Counted? ==> app'.phase.id + 1 == app'.count)
    && (app'.phase == Waiting ==> app.phase == Waiting && app'.count == app.count)
    && (app'.phase == Freed ==>
        app'.count == app.count && (app.phase == Freed || (reaps && app.completed == app.count)))
  }

  lemma RecordEffect(s: State, pes: nat, step: Step, a: nat)
    requires s.Fits(pes) && Enabled(s, pes, step) && a < |s.apps|
    requires s.apps[a].phase.Counted? ==> s.apps[a].phase.id + 1 == s.apps[a].count
    requires step.Reap? && s.poison[step.k] == a ==> s.apps[a].phase == Poisoned
    ensures |Apply(s, pes, step).apps| == |s.apps|
    ensures RecordMoves(s.apps[a], Apply(s, pes, step).apps[a], Pushes(ByApp(a), s, pes, step),
                        Drains(ByApp(a), s, pes, step), step.Reap? && s.poison[step.k] == a)
  {
  }

  lemma PillMeansPoisoned(s: State, a: nat)
    requires a < |s.apps| && PillAgrees(s, a)
    ensures a in s.poison <==> s.apps[a].phase == Poisoned
  {
    assert a in s.poison <==> a in multiset(s.poison);
  }

  lemma CountersMove(s: State, pes: nat, step: Step, a: nat)
    requires s.Fits(pes) && Enabled(s, pes, step) && a < |s.apps| && CountersAgree(s, a)
    requires Apply(s, pes, step).Fits(pes) && |Apply(s, pes, step).apps| == |s.apps|
    requires RecordMoves(s.apps[a], Apply(s, pes, step).apps[a], Pushes(ByApp(a), s, pes, step),
                         Drains(ByApp(a), s, pes, step), step.Reap? && s.poison[step.k] == a)
    ensures CountersAgree(Apply(s, pes, step), a)
  {
    StepConserves(ByApp(a), s, pes, step);
  }

  lemma StepKeepsCounters(s: State, pes: nat, step: Step, a: nat)
    requires s.Fits(pes) && Enabled(s, pes, step) && a < |s.apps| && CountersAgree(s, a) && PillAgrees(s, a)
    ensures Apply(s, pes, step).Fits(pes) && |Apply(s, pes, step).apps| == |s.apps|
    ensures CountersAgree(Apply(s, pes, step), a)
  {
    StepFits(s, pes, step);
    PillMeansPoisoned(s, a);
    RecordEffect(s, pes, step, a);
    CountersMove(s, pes, step, a);
  }

  lemma StepKeepsPill(s: State, pes: nat, step: Step, a: nat)
    requires s.Fits(pes) && Enabled(s, pes, step) && a < |s.apps| && PillAgrees(s, a)
    ensures |Apply(s, pes, step).apps| == |s.apps| && PillAgrees(Apply(s, pes, step), a)
  {
    match step {
      case Pill(b) => PillKeepsPill(s, Apply(s, pes, step), b, a);
      case Reap(k) => ReapKeepsPill(s, Apply(s, pes, step), k, a);
      case _ =>
    }
  }

  lemma PillKeepsPill(s: State, s': State, b: nat, a: nat)
    requires a < |s.apps| == |s'.apps| && PillAgrees(s, a) && s'.poison == s.poison + [b]
    requires if a == b then s.apps[a].phase == Live && s'.apps[a].phase == Poisoned else s'.apps[a] == s.apps[a]
    ensures PillAgrees(s', a)
  {
    PillQueued(s.poison, b, a);
  }

  lemma ReapKeepsPill(s: State, s': State, k: nat, a: nat)
    requires a < |s.apps| == |s'.apps| && k < |s.poison| && PillAgrees(s, a) && s'.poison == Without(s.poison, k)
    requires s'.apps[a].phase == if s.poison[k] == a then Freed else s.apps[a].phase
    ensures PillAgrees(s', a)
  {
    WithoutOne(s.poison, k);
    PillMeansPoisoned(s, a);
  }

  lemma PillQueued(poison: seq<nat>, b: nat, a: nat)
    ensures multiset(poison + [b])[a] == multiset(poison)[a] + if a == b then 1 else 0
  {
  }

  lemma StepKeepsOnce(s: State, pes: nat, step: Step, x: Call)
    requires s.Fits(pes) && Enabled(s, pes, step) && Once(s, x)
    requires x.app < |s.apps| ==> CountersAgree(s, x.app) && PillAgrees(s, x.app)
    ensures Apply(s, pes, step).Fits(pes) && Once(Apply(s, pes, step), x)
  {
    StepFits(s, pes, step);
    if x.app < |s.apps| {
      PillMeansPoisoned(s, x.app);
      RecordEffect(s, pes, step, x.app);
      PushedNumber(s, pes, step, x);
    }
    OnceMoves(s, pes, step, x);
  }

  /** The only call a step can push is the application's next number. */
  lemma PushedNumber(s: State, pes: nat, step: Step, x: Call)
    requires s.Fits(pes) && Enabled(s, pes, step) && x.app < |s.apps|
    requires s.apps[x.app].phase.Counted? ==> s.apps[x.app].phase.id + 1 == s.apps[x.app].count
    ensures Pushes(Exactly(x), s, pes, step)
         == if Pushes(ByApp(x.app), s, pes, step) == 1 && x.id == s.apps[x.app].Pushed() then 1 else 0
  {
  }

  lemma OnceMoves(s: State, pes: nat, step: Step, x: Call)
    requires s.Fits(pes) && Enabled(s, pes, step) && Once(s, x)
    requires Apply(s, pes, step).Fits(pes) && |Apply(s, pes, step).apps| == |s.apps|
    requires x.app < |s.apps| ==>
      && Apply(s, pes, step).apps[x.app].Pushed() == s.apps[x.app].Pushed() + Pushes(ByApp(x.app), s, pes, step)
      && Pushes(Exactly(x), s, pes, step)
         == if Pushes(ByApp(x.app), s, pes, step) == 1 && x.id == s.apps[x.app].Pushed() then 1 else 0
    ensures Once(Apply(s, pes, step), x)
  {
    StepConserves(Exactly(x), s, pes, step);
  }

  lemma StepKeepsWorker(s: State, pes: nat, step: Step, pe: nat)
    requires s.Fits(pes) && Enabled(s, pes, step) && pe < pes && WorkerOk(s, pe)
    requires forall k: nat :: k < pes && step == Finish(k) ==> WorkerOk(s, k)
    ensures Apply(s, pes, step).Fits(pes) && WorkerOk(Apply(s, pes, step), pe)
  {
    StepFits(s, pes, step);
    match step {
      case Assign(i, k) =>
        AddedLast(s.executed[k] + SlotCalls(s.slot[k]), s.todo[k], s.ready[i]);
      case Take(k) =>
        TakenFirst(s.executed[k], s.todo[k]);
      case _ =>
    }
  }

  lemma TakenFirst(a: seq<Call>, todo: seq<Call>)
    requires todo != []
    ensures a + [] + todo == a + [todo[0]] + todo[1..]
  {
  }

  lemma AddedLast(a: seq<Call>, b: seq<Call>, c: Call)
    ensures (a + b) + [c] == a + (b + [c])
  {
  }

  lemma StepKeepsInv(s: State, pes: nat, step: Step)
    requires Inv(s, pes) && Enabled(s, pes, step)
    ensures Inv(Apply(s, pes, step), pes)
  {
    StepFits(s, pes, step);
    var s' := Apply(s, pes, step);
    forall a: nat | a < |s.apps| ensures CountersAgree(s', a) && PillAgrees(s', a) {
      StepKeepsCounters(s, pes, step, a);
      StepKeepsPill(s, pes, step, a);
    }
    forall x ensures Once(s', x) {
      StepKeepsOnce(s, pes, step, x);
    }
    forall pe: nat | pe < pes ensures WorkerOk(s', pe) {
      StepKeepsWorker(s, pes, step, pe);
    }
  }

  // ---- runs ----

  ghost predicate Runs(s: State, pes: nat, steps: seq<Step>, s': State)
    decreases |steps|
  {
    if steps == [] then s == s'
    else s.Fits(pes) && Enabled(s, pes, steps[0]) && Runs(Apply(s, pes, steps[0]), pes, steps[1..], s')
  }

  lemma {:induction false} RunsOneMore(s: State, pes: nat, steps: seq<Step>, mid: State, step: Step)
    requires Runs(s, pes, steps, mid) && mid.Fits(pes) && Enabled(mid, pes, step)
    ensures Runs(s, pes, steps + [step], Apply(mid, pes, step))
    decreases |steps|
  {
    if steps == [] {
      assert [step][1..] == [];
    } else {
      RunsOneMore(Apply(s, pes, steps[0]), pes, steps[1..], mid, step);
      assert (steps + [step])[1..] == steps[1..] + [step];
    }
  }

  ghost predicate Reachable(s: State, pes: nat) {
    exists s0, steps :: Init(s0, pes) && Runs(s0, pes, steps, s)
  }

  lemma {:induction false} RunKeepsInv(s: State, pes: nat, steps: seq<Step>, s': State)
    requires Inv(s, pes) && Runs(s, pes, steps, s')
    ensures Inv(s', pes)
    decreases |steps|
  {
    if steps != [] {
      StepKeepsInv(s, pes, steps[0]);
      RunKeepsInv(Apply(s, pes, steps[0]), pes, steps[1..], s');
    }
  }

  lemma ReachableInv(s: State, pes: nat)
    requires Reachable(s, pes)
    ensures Inv(s, pes)
  {
    var s0, steps :| Init(s0, pes) && Runs(s0, pes, steps, s);
    InitInv(s0, pes);
    RunKeepsInv(s0, pes, steps, s);
  }

  // ---- application lifecycle ----

  /** task_count - completed_task_count is the number of the application's calls in the ready queue, on
      a PE or completed but not drained, plus the one being pushed. */
  lemma CountsAreInFlight(s: State, pes: nat, a: nat)
    requires Reachable(s, pes) && a < |s.apps|
    ensures s.Fits(pes)
    ensures s.apps[a].count - s.apps[a].completed == InFlight(ByApp(a), s) + if s.apps[a].phase.Counted? then 1 else 0
  {
    ReachableInv(s, pes);
    assert CountersAgree(s, a);
  }

  /** c is in the ready queue, in a todo or completed deque, or running. */
  ghost predicate Flying(s: State, c: Call)
    requires |s.todo| == |s.slot| == |s.done|
  {
    c in s.ready || exists pe: nat :: pe < |s.todo| && HeldBy(s, pe, c)
  }

  ghost predicate HeldBy(s: State, pe: nat, c: Call)
    requires pe < |s.todo| == |s.slot| == |s.done|
  {
    c in s.todo[pe] || s.slot[pe] == Some(c) || c in s.done[pe]
  }

  lemma FlyingCounts(s: State, c: Call, p: Call -> bool)
    requires |s.todo| == |s.slot| == |s.done| && Flying(s, c) && p(c)
    ensures InFlight(p, s) > 0
  {
    if c in s.ready {
      OfNone(p, s.ready, c);
    } else {
      var pe: nat :| pe < |s.todo| && HeldBy(s, pe, c);
      OnPesSplit(p, s.todo, s.slot, s.done, |s.todo|, pe);
      if c in s.todo[pe] {
        OfNone(p, s.todo[pe], c);
      } else if c in s.done[pe] {
        OfNone(p, s.done[pe], c);
      }
    }
  }

  /** The loop frees an application as soon as, and not before, its pill is queued and none of its calls
      is in flight. */
  lemma ReapedWhenDrained(s: State, pes: nat, k: nat)
    requires Reachable(s, pes) && s.daemon == Serving && k < |s.poison|
    ensures s.Fits(pes) && s.apps[s.poison[k]].phase == Poisoned
    ensures Enabled(s, pes, Reap(k)) <==> forall c :: Flying(s, c) ==> c.app != s.poison[k]
  {
    ReachableInv(s, pes);
    var a := s.poison[k];
    assert CountersAgree(s, a) && PillAgrees(s, a);
    assert a in multiset(s.poison);
    if Enabled(s, pes, Reap(k)) {
      forall c | Flying(s, c) ensures c.app != a {
        if c.app == a {
          FlyingCounts(s, c, ByApp(a));
        }
      }
    } else {
      var c := SomeFlying(ByApp(a), s);
      assert c.app == a;
    }
  }

  lemma SomeFlying(p: Call -> bool, s: State) returns (c: Call)
    requires |s.todo| == |s.slot| == |s.done| && InFlight(p, s) > 0
    ensures Flying(s, c) && p(c)
  {
    if Of(p, s.ready) > 0 {
      c := SomeOf(p, s.ready);
    } else {
      var pe;
      pe, c := SomeOnPes(p, s, |s.todo|);
      assert HeldBy(s, pe, c);
    }
  }

  lemma {:induction false} SomeOf(p: Call -> bool, s: seq<Call>) returns (c: Call)
    requires Of(p, s) > 0
    ensures c in s && p(c)
  {
    if p(s[|s| - 1]) {
      c := s[|s| - 1];
    } else {
      c := SomeOf(p, s[..|s| - 1]);
    }
  }

  lemma {:induction false} SomeOnPes(p: Call -> bool, s: State, n: nat) returns (pe: nat, c: Call)
    requires n <= |s.todo| == |s.slot| == |s.done| && OnPes(p, s.todo, s.slot, s.done, n) > 0
    ensures pe < |s.todo| && HeldBy(s, pe, c) && p(c)
  {
    pe := n - 1;
    if Of(p, s.todo[pe]) > 0 {
      c := SomeOf(p, s.todo[pe]);
    } else if OfSlot(p, s.slot[pe]) > 0 {
      c := s.slot[pe].value;
    } else if Of(p, s.done[pe]) > 0 {
      c := SomeOf(p, s.done[pe]);
    } else {
      pe, c := SomeOnPes(p, s, n - 1);
    }
  }

  /** When an application is freed the trace log holds each of its calls exactly once. */
  lemma FreedFullyLogged(s: State, pes: nat, a: nat, id: nat)
    requires Reachable(s, pes) && a < |s.apps| && s.apps[a].phase == Freed && id < s.apps[a].count
    ensures Of(Exactly(Call(a, id)), s.logged) == 1
  {
    ReachableInv(s, pes);
    assert CountersAgree(s, a) && Once(s, Call(a, id));
    if InFlight(Exactly(Call(a, id)), s) > 0 {
      var c := SomeFlying(Exactly(Call(a, id)), s);
      FlyingCounts(s, c, ByApp(a));
    }
  }

  /** Nothing in flight points to an application that is not there yet or is already freed, so draining
      never touches freed memory. */
  lemma NoCallOutlivesItsApp(s: State, pes: nat, c: Call)
    requires Reachable(s, pes) && s.Fits(pes) && Flying(s, c)
    ensures c.app < |s.apps| && s.apps[c.app].phase != Freed && s.apps[c.app].phase != Waiting
  {
    ReachableInv(s, pes);
    FlyingCounts(s, c, Exactly(c));
    assert Once(s, c);
    FlyingCounts(s, c, ByApp(c.app));
    assert CountersAgree(s, c.app);
  }

  /** A freed application is never touched again: it is freed at most once. */
  lemma {:induction false} FreedForever(s: State, pes: nat, steps: seq<Step>, s': State, a: nat)
    requires Inv(s, pes) && Runs(s, pes, steps, s') && a < |s.apps| && s.apps[a].phase == Freed
    ensures |s'.apps| == |s.apps| && s'.apps[a] == s.apps[a]
    ensures forall i :: 0 <= i < |steps| ==> !Touches(steps[i], a)
    decreases |steps|
  {
    if steps != [] {
      FreedUntouched(s, pes, steps[0], a);
      StepKeepsInv(s, pes, steps[0]);
      FreedForever(Apply(s, pes, steps[0]), pes, steps[1..], s', a);
      forall i | 0 <= i < |steps| ensures !Touches(steps[i], a) {
        assert i > 0 ==> steps[i] == steps[1..][i - 1];
      }
    }
  }

  /** The steps that name an application. */
  predicate Touches(step: Step, a: nat) {
    step == Launch(a) || step == Count(a) || step == Push(a) || step == Pill(a)
  }

  lemma FreedUntouched(s: State, pes: nat, step: Step, a: nat)
    requires Inv(s, pes) && Enabled(s, pes, step) && a < |s.apps| && s.apps[a].phase == Freed
    ensures |Apply(s, pes, step).apps| == |s.apps| && Apply(s, pes, step).apps[a] == s.apps[a] && !Touches(step, a)
    ensures step.Reap? ==> s.poison[step.k] != a
  {
    FreedHasNone(s, pes, step, a);
  }

  /** A freed application has no call left to drain and no pill left to reap. */
  lemma FreedHasNone(s: State, pes: nat, step: Step, a: nat)
    requires Inv(s, pes) && Enabled(s, pes, step) && a < |s.apps| && s.apps[a].phase == Freed
    ensures step.Drain? ==> s.done[step.pe][0].app != a
    ensures step.Reap? ==> s.poison[step.k] != a
  {
    assert CountersAgree(s, a) && PillAgrees(s, a);
    if step.Drain? && s.done[step.pe][0].app == a {
      assert HeldBy(s, step.pe, s.done[step.pe][0]);
      FlyingCounts(s, s.done[step.pe][0], ByApp(a));
    }
    if step.Reap? {
      PillMeansPoisoned(s, a);
    }
  }

  // ---- shutdown ----

  /** Once a PE's state is 3 its deque is empty, nothing runs on it, and both stay so whatever happens;
      its worker leaves only then, with everything it was ever handed executed in order. */
  lemma {:induction false} ToldForever(s: State, pes: nat, steps: seq<Step>, s': State, pe: nat)
    requires Inv(s, pes) && Runs(s, pes, steps, s') && pe < pes && s.resource[pe] == EXIT
    ensures s'.Fits(pes) && s'.resource[pe] == EXIT && s'.todo[pe] == [] && s'.slot[pe] == None
    ensures s'.handed[pe] == s.handed[pe] == s'.executed[pe] == s.executed[pe]
    decreases |steps|
  {
    assert WorkerOk(s, pe);
    if steps != [] {
      StepKeepsInv(s, pes, steps[0]);
      ToldStays(s, pes, steps[0], pe);
      ToldForever(Apply(s, pes, steps[0]), pes, steps[1..], s', pe);
    }
  }

  lemma ToldStays(s: State, pes: nat, step: Step, pe: nat)
    requires s.Fits(pes) && pe < pes && WorkerOk(s, pe) && s.resource[pe] == EXIT && Enabled(s, pes, step)
    ensures var s' := Apply(s, pes, step);
            && s'.Fits(pes) && s'.resource[pe] == EXIT
            && s'.handed[pe] == s.handed[pe] && s'.executed[pe] == s.executed[pe]
  {
    StepFits(s, pes, step);
  }

  lemma ExitedHasExecutedAll(s: State, pes: nat, pe: nat)
    requires Reachable(s, pes) && s.Fits(pes) && pe < pes && (!s.alive[pe] || s.resource[pe] == EXIT)
    ensures s.resource[pe] == EXIT && s.executed[pe] == s.handed[pe] && s.todo[pe] == [] && s.slot[pe] == None
  {
    ReachableInv(s, pes);
    assert WorkerOk(s, pe);
  }

  /** A step of a worker or of the exit loop. */
  predicate Shutting(step: Step) {
    step.Take? || step.Finish? || step.Observe? || step.SetExit? || step.Exit?
  }

  /** The handshake cannot deadlock: when no worker and no exit step is possible any more, every PE has
      been told, every worker has left, and all the work handed out has been executed. */
  lemma ShutdownCompletes(s: State, pes: nat)
    requires Reachable(s, pes) && s.Fits(pes) && s.daemon.Stopping?
    requires forall step :: Shutting(step) ==> !Enabled(s, pes, step)
    ensures s.daemon == Stopping(pes, false)
    ensures forall pe: nat :: pe < pes ==> !s.alive[pe] && s.executed[pe] == s.handed[pe]
  {
    ReachableInv(s, pes);
    assert !Enabled(s, pes, Observe) && !Enabled(s, pes, SetExit);
    if s.daemon.pe < pes {
      PeGoesQuiet(s, pes, s.daemon.pe);
    }
    forall pe: nat | pe < pes ensures !s.alive[pe] && s.executed[pe] == s.handed[pe] {
      PeGoesQuiet(s, pes, pe);
      assert WorkerOk(s, pe) && !Enabled(s, pes, Exit(pe));
    }
  }

  lemma PeGoesQuiet(s: State, pes: nat, pe: nat)
    requires s.Fits(pes) && pe < pes && WorkerOk(s, pe)
    requires forall step :: Shutting(step) ==> !Enabled(s, pes, step)
    ensures s.slot[pe] == None && s.todo[pe] == []
  {
    assert !Enabled(s, pes, Finish(pe)) && !Enabled(s, pes, Take(pe));
  }

  // ---- the handshake terminates ----

  function PeWork(s: State, n: nat): nat
    requires n <= |s.todo| == |s.slot| == |s.alive|
  {
    if n == 0 then 0
    else
      PeWork(s, n - 1)
      + 2 * |s.todo[n - 1]| + (if s.slot[n - 1].Some? then 1 else 0) + (if s.alive[n - 1] then 1 else 0)
  }

  /** Steps still to come in the handshake, at most. */
  function Remaining(s: State, pes: nat): int
    requires s.Fits(pes) && s.daemon.Stopping?
  {
    PeWork(s, pes) + 2 * (pes - s.daemon.pe) - if s.daemon.seen then 1 else 0
  }

  lemma {:induction false} PeWorkChange(s: State, s': State, pe: nat, n: nat)
    requires n <= |s.todo| == |s.slot| == |s.alive| == |s'.todo| == |s'.slot| == |s'.alive|
    requires forall k :: 0 <= k < n && k != pe ==>
             s.todo[k] == s'.todo[k] && s.slot[k] == s'.slot[k] && s.alive[k] == s'.alive[k]
    ensures PeWork(s', n) == PeWork(s, n) + if pe < n then PeLeft(s', pe) - PeLeft(s, pe) else 0
  {
    if n != 0 {
      PeWorkChange(s, s', pe, n - 1);
    }
  }

  function PeLeft(s: State, pe: nat): nat
    requires pe < |s.todo| == |s.slot| == |s.alive|
  {
    2 * |s.todo[pe]| + (if s.slot[pe].Some? then 1 else 0) + if s.alive[pe] then 1 else 0
  }

  /** Every worker or exit step lowers what remains; the applications, which may go on enqueueing, do
      not raise it. So the handshake ends after at most Remaining steps of its own. */
  lemma HandshakeProgress(s: State, pes: nat, step: Step)
    requires s.Fits(pes) && s.daemon.Stopping? && Enabled(s, pes, step)
    ensures var s' := Apply(s, pes, step);
            && s'.Fits(pes) && s'.daemon.Stopping? && 0 <= Remaining(s', pes)
            && Remaining(s', pes) == Remaining(s, pes) - if Shutting(step) then 1 else 0
  {
    StepFits(s, pes, step);
    var s' := Apply(s, pes, step);
    var pe := if step.Take? || step.Finish? || step.Exit? then step.pe else pes;
    PeWorkChange(s, s', pe, pes);
  }

  function HandshakeSteps(steps: seq<Step>): nat {
    if steps == [] then 0 else HandshakeSteps(steps[1..]) + if Shutting(steps[0]) then 1 else 0
  }

  lemma {:induction false} HandshakeIsBounded(s: State, pes: nat, steps: seq<Step>, s': State)
    requires s.Fits(pes) && s.daemon.Stopping? && Runs(s, pes, steps, s')
    ensures HandshakeSteps(steps) <= Remaining(s, pes)
    decreases |steps|
  {
    if steps == [] {
      PeWorkChange(s, s, pes, pes);
    } else {
      HandshakeProgress(s, pes, steps[0]);
      HandshakeIsBounded(Apply(s, pes, steps[0]), pes, steps[1..], s');
    }
  }
}
