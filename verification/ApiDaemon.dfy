/** The API runtime's code for the steps of ApiLifecycle: enqueue_kernel's sections, the worker loop's
    sections, and the daemon's drain and retirement loops. */
module ApiDaemon {
  import opened Basics
  import opened Bits
  import opened ApiLifecycle
  import opened ApiLifecycleRuns

  // ---- the other threads ----

  /** A step of an application or of a worker; while the daemon holds the poison queue's mutex, none
      that pushes a pill. */
  predicate Foreign(step: Step, pills: bool) {
    step.Count? || step.Push? || step.Take? || step.Finish? || step.Exit? || (pills && step.Pill?)
  }

  /** Such a step if it is possible, and nothing otherwise. */
  function TryStep(s: State, pes: nat, step: Step, pills: bool): State
    requires s.Fits(pes)
  {
    if Foreign(step, pills) && Enabled(s, pes, step) then Apply(s, pes, step) else s
  }

  function OthersDo(s: State, pes: nat, script: seq<Step>, pills: bool): (r: State)
    requires s.Fits(pes)
    ensures r.Fits(pes)
    decreases |script|
  {
    if script == [] then s
    else
      TryFits(s, pes, script[0], pills);
      OthersDo(TryStep(s, pes, script[0], pills), pes, script[1..], pills)
  }

  lemma TryFits(s: State, pes: nat, step: Step, pills: bool)
    requires s.Fits(pes)
    ensures TryStep(s, pes, step, pills).Fits(pes)
  {
    if Foreign(step, pills) && Enabled(s, pes, step) {
      StepFits(s, pes, step);
    }
  }

  /** Over, as far as the application itself is concerned: its thread does nothing any more. */
  predicate Over(app: App) { app.phase == Poisoned || app.phase == Freed }

  /** What the daemon may rely on across a pause. */
  ghost predicate Undisturbed(s: State, s': State, pes: nat, pills: bool)
    requires |s.done| == pes
  {
    && s'.daemon == s.daemon && s'.logged == s.logged && |s'.done| == pes && |s'.apps| == |s.apps|
    && s.poison <= s'.poison && (!pills ==> s'.poison == s.poison)
    && (forall pe: nat :: pe < pes ==> s.done[pe] <= s'.done[pe])
    && (forall a: nat :: a < |s.apps| && Over(s.apps[a]) ==> s'.apps[a] == s.apps[a])
  }

  lemma TryUndisturbed(s: State, pes: nat, step: Step, pills: bool)
    requires s.Fits(pes)
    ensures Undisturbed(s, TryStep(s, pes, step, pills), pes, pills)
  {
  }

  lemma UndisturbedTwice(s1: State, s2: State, s3: State, pes: nat, pills: bool)
    requires |s1.done| == |s2.done| == pes && Undisturbed(s1, s2, pes, pills) && Undisturbed(s2, s3, pes, pills)
    ensures Undisturbed(s1, s3, pes, pills)
  {
  }

  lemma {:induction false} OthersUndisturbing(s: State, pes: nat, script: seq<Step>, pills: bool)
    requires s.Fits(pes)
    ensures Undisturbed(s, OthersDo(s, pes, script, pills), pes, pills)
    decreases |script|
  {
    if script != [] {
      var next := TryStep(s, pes, script[0], pills);
      TryFits(s, pes, script[0], pills);
      TryUndisturbed(s, pes, script[0], pills);
      OthersUndisturbing(next, pes, script[1..], pills);
      UndisturbedTwice(s, next, OthersDo(s, pes, script, pills), pes, pills);
    }
  }

  /** What the others do is a run. */
  lemma {:induction false} OthersRun(s: State, pes: nat, before: seq<Step>, at: State, script: seq<Step>, pills: bool)
    returns (steps: seq<Step>)
    requires Inv(at, pes) && Runs(s, pes, before, at)
    ensures Runs(s, pes, steps, OthersDo(at, pes, script, pills)) && Inv(OthersDo(at, pes, script, pills), pes)
    decreases |script|
  {
    steps := before;
    if script != [] {
      if Foreign(script[0], pills) && Enabled(at, pes, script[0]) {
        RunsOneMore(s, pes, before, at, script[0]);
        StepKeepsInv(at, pes, script[0]);
        steps := before + [script[0]];
      }
      steps := OthersRun(s, pes, steps, TryStep(at, pes, script[0], pills), script[1..], pills);
    }
  }

  // ---- retirement ----

  predicate Finished(apps: seq<App>, a: nat) {
    a < |apps| && apps[a].completed == apps[a].count
  }

  /** The pills that stay: those whose application still has calls to be drained. */
  function Unfinished(apps: seq<App>, poison: seq<nat>): seq<nat> {
    if poison == [] then []
    else (if Finished(apps, poison[0]) then [] else [poison[0]]) + Unfinished(apps, poison[1..])
  }

  /** The applications with a pill in the list are over, and their counters are those of apps0. */
  ghost predicate SameCounts(apps: seq<App>, apps0: seq<App>, poison0: seq<nat>) {
    |apps| == |apps0| && forall a: nat :: a in poison0 && a < |apps| ==>
      Over(apps[a]) && apps[a].count == apps0[a].count && apps[a].completed == apps0[a].completed
  }

  /** The retirement loop at position k: of the pills in sight those before k stay, and the outcome is
      still to be what it was at the start. */
  ghost predicate Swept(apps: seq<App>, poison0: seq<nat>, poison: seq<nat>, k: nat) {
    k <= |poison| && poison[..k] + Unfinished(apps, poison[k..]) == Unfinished(apps, poison0)
    && (forall i :: 0 <= i < k ==> !Finished(apps, poison[i]))
    && forall i :: 0 <= i < |poison| ==> poison[i] in poison0
  }

  lemma SweptStart(apps: seq<App>, poison: seq<nat>)
    ensures Swept(apps, poison, poison, 0)
  {
    assert poison[..0] + Unfinished(apps, poison[0..]) == Unfinished(apps, poison);
  }

  lemma SweptReaped(apps: seq<App>, poison0: seq<nat>, poison: seq<nat>, k: nat)
    requires Swept(apps, poison0, poison, k) && k < |poison| && Finished(apps, poison[k])
    ensures Swept(apps, poison0, Without(poison, k), k)
  {
    assert poison[k..][0] == poison[k] && poison[k..][1..] == poison[k + 1..];
    assert Without(poison, k)[..k] == poison[..k] && Without(poison, k)[k..] == poison[k + 1..];
  }

  lemma SweptKept(apps: seq<App>, poison0: seq<nat>, poison: seq<nat>, k: nat)
    requires Swept(apps, poison0, poison, k) && k < |poison| && !Finished(apps, poison[k])
    ensures Swept(apps, poison0, poison, k + 1)
  {
    assert poison[k..][0] == poison[k] && poison[k..][1..] == poison[k + 1..];
    assert poison[..k + 1] == poison[..k] + [poison[k]];
    ConcatAssoc(poison[..k], [poison[k]], Unfinished(apps, poison[k + 1..]));
  }

  lemma SweptEnd(apps: seq<App>, poison0: seq<nat>, poison: seq<nat>)
    requires Swept(apps, poison0, poison, |poison|)
    ensures poison == Unfinished(apps, poison0)
  {
    assert poison[..|poison|] == poison && poison[|poison|..] == [];
    assert poison + [] == poison;
  }

  lemma PillsAreOver(s: State, pes: nat)
    requires Inv(s, pes)
    ensures SameCounts(s.apps, s.apps, s.poison)
  {
    forall a: nat | a in s.poison && a < |s.apps| ensures Over(s.apps[a]) {
      assert PillAgrees(s, a);
      PillMeansPoisoned(s, a);
    }
  }

  lemma NothingToReap(apps: seq<App>, poison0: seq<nat>, s: State, pes: nat)
    requires s.Fits(pes) && SameCounts(s.apps, apps, poison0) && Swept(apps, poison0, s.poison, |s.poison|)
    ensures forall k :: !Enabled(s, pes, Reap(k))
  {
    forall k: nat | k < |s.poison| ensures !Enabled(s, pes, Reap(k)) {
      assert s.poison[k] in poison0 && !Finished(apps, s.poison[k]);
    }
  }

  /** Of the calls that were complete when the loop began, rest is still to come. */
  lemma Popping(rest: seq<Call>, now: seq<Call>, logged: seq<Call>)
    requires rest != [] && rest <= now
    ensures now != [] && now[0] == rest[0] && rest[1..] <= now[1..]
    ensures (logged + [now[0]]) + rest[1..] == logged + rest
  {
    assert rest == [rest[0]] + rest[1..];
  }

  /** others says what the other threads do each time the daemon pauses. */
  class Runtime {
    const pes: nat
    const others: nat -> seq<Step>
    var apps: seq<App>
    var ready: seq<Call>
    var todo: seq<seq<Call>>
    var slot: seq<Option<Call>>
    var done: seq<seq<Call>>
    var resource: seq<nat>
    var alive: seq<bool>
    var poison: seq<nat>
    var daemon: Daemon
    var logged: seq<Call>
    var pauses: nat
    ghost var handed: seq<seq<Call>>
    ghost var executed: seq<seq<Call>>

    ghost function Now(): State
      reads this
    {
      State(apps, ready, todo, slot, done, resource, alive, poison, daemon, logged, handed, executed)
    }

    ghost predicate Valid()
      reads this
    {
      Inv(Now(), pes)
    }

    // ---- an application's thread ----

    /** enqueue_kernel up to the counter: the new node takes the old count as its number. */
    method CountCall(a: nat)
      requires Valid() && Enabled(Now(), pes, Count(a))
      modifies this`apps
      ensures Valid() && Now() == Apply(old(Now()), pes, Count(a))
    {
      StepKeepsInv(Now(), pes, Count(a));
      var app := apps[a];
      apps := apps[a := App(Counted(app.count), app.count + 1, app.completed)];
    }

    /** enqueue_kernel's push onto the ready queue. */
    method PushCall(a: nat)
      requires Valid() && Enabled(Now(), pes, Push(a))
      modifies this`apps, this`ready
      ensures Valid() && Now() == Apply(old(Now()), pes, Push(a))
    {
      StepKeepsInv(Now(), pes, Push(a));
      var app := apps[a];
      ready := ready + [Call(a, app.phase.id)];
      apps := apps[a := App(Live, app.count, app.completed)];
    }

    /** The pill that nk_thread_func enqueues when main has returned. */
    method PushPill(a: nat)
      requires Valid() && Enabled(Now(), pes, Pill(a))
      modifies this`apps, this`poison
      ensures Valid() && Now() == Apply(old(Now()), pes, Pill(a))
    {
      StepKeepsInv(Now(), pes, Pill(a));
      poison := poison + [a];
      apps := apps[a := App(Poisoned, apps[a].count, apps[a].completed)];
    }

    // ---- a worker thread ----

    /** One pass of the loop while the worker is between tasks: take the first task, leave, or go round. */
    method WorkerPass(pe: nat) returns (ghost step: Option<Step>)
      requires Valid() && pe < pes && alive[pe] && slot[pe] == None
      modifies this`todo, this`slot, this`resource, this`alive
      ensures Valid()
      ensures step == if old(todo[pe]) != [] then Some(Take(pe))
                      else if old(resource[pe]) == EXIT then Some(Exit(pe)) else None
      ensures step == None ==> Now() == old(Now())
      ensures step.Some? ==> old(Enabled(Now(), pes, step.value)) && Now() == Apply(old(Now()), pes, step.value)
    {
      step := None;
      if todo[pe] != [] {
        step := Some(Take(pe));
        StepKeepsInv(Now(), pes, Take(pe));
        var task := todo[pe][0];
        todo := todo[pe := todo[pe][1..]];
        slot := slot[pe := Some(task)];
        resource := resource[pe := RUNNING];
      } else if resource[pe] == EXIT {
        step := Some(Exit(pe));
        StepKeepsInv(Now(), pes, Exit(pe));
        alive := alive[pe := false];
      }
    }

    /** After the kernel has run: hand the task over and report idle. */
    method WorkerFinish(pe: nat)
      requires Valid() && pe < pes && slot[pe].Some?
      modifies this`done, this`slot, this`resource, this`executed
      ensures Valid() && Now() == Apply(old(Now()), pes, Finish(pe))
    {
      StepKeepsInv(Now(), pes, Finish(pe));
      var task := slot[pe].value;
      done := done[pe := done[pe] + [task]];
      resource := resource[pe := IDLE];
      slot := slot[pe := None];
      executed := executed[pe := executed[pe] + [task]];
    }

    // ---- the daemon ----

    /** One turn of another thread: the step, if it is possible. */
    method OtherTurn(step: Step, pills: bool)
      requires Valid()
      modifies this`apps, this`ready, this`todo, this`slot, this`done, this`resource, this`alive, this`poison
      modifies this`executed
      ensures Valid() && Now() == TryStep(old(Now()), pes, step, pills)
    {
      match step {
        case Count(a) =>
          if a < |apps| && apps[a].phase == Live {
            CountCall(a);
          }
        case Push(a) =>
          if a < |apps| && apps[a].phase.Counted? {
            PushCall(a);
          }
        case Pill(a) =>
          if pills && a < |apps| && apps[a].phase == Live {
            PushPill(a);
          }
        case Take(pe) =>
          if pe < pes && alive[pe] && slot[pe] == None && todo[pe] != [] {
            ghost var taken := WorkerPass(pe);
          }
        case Finish(pe) =>
          if pe < pes && slot[pe].Some? {
            WorkerFinish(pe);
          }
        case Exit(pe) =>
          if pe < pes && alive[pe] && slot[pe] == None && todo[pe] == [] && resource[pe] == EXIT {
            ghost var left := WorkerPass(pe);
          }
        case _ =>
      }
    }

    method OthersTurn(script: seq<Step>, pills: bool)
      requires Valid()
      modifies this`apps, this`ready, this`todo, this`slot, this`done, this`resource, this`alive, this`poison
      modifies this`executed
      ensures Valid() && Now() == OthersDo(old(Now()), pes, script, pills)
    {
      assert script[0..] == script;
      for k := 0 to |script|
        invariant Valid() && OthersDo(Now(), pes, script[k..], pills) == OthersDo(old(Now()), pes, script, pills)
      {
        assert script[k..][0] == script[k] && script[k..][1..] == script[k + 1..];
        OtherTurn(script[k], pills);
      }
    }

    /** A pause of the daemon. before leads from s to the present state. */
    method Pause(pills: bool, ghost s: State, ghost before: seq<Step>) returns (ghost steps: seq<Step>)
      requires Valid() && Runs(s, pes, before, Now())
      modifies this`apps, this`ready, this`todo, this`slot, this`done, this`resource, this`alive, this`poison
      modifies this`executed, this`pauses
      ensures Valid() && Runs(s, pes, steps, Now()) && Undisturbed(old(Now()), Now(), pes, pills)
    {
      steps := OthersRun(s, pes, before, Now(), others(pauses), pills);
      OthersUndisturbing(Now(), pes, others(pauses), pills);
      OthersTurn(others(pauses), pills);
      pauses := pauses + 1;
    }

    method DrainFront(pe: nat)
      requires Valid() && Enabled(Now(), pes, Drain(pe))
      modifies this`done, this`apps, this`logged
      ensures Valid() && Now() == Apply(old(Now()), pes, Drain(pe))
    {
      StepKeepsInv(Now(), pes, Drain(pe));
      var task := done[pe][0];
      done := done[pe := done[pe][1..]];
      var app := apps[task.app];
      apps := apps[task.app := App(app.phase, app.count, app.completed + 1)];
      logged := logged + [task];
    }

    /** The drain loop for one PE: exactly the calls that were complete when the daemon looked, whatever
        the other threads do meanwhile. */
    method DrainPe(pe: nat) returns (ghost steps: seq<Step>)
      requires Valid() && pe < pes && daemon == Serving
      modifies this`apps, this`ready, this`todo, this`slot, this`done, this`resource, this`alive, this`poison
      modifies this`executed, this`pauses, this`logged
      ensures Valid() && Runs(old(Now()), pes, steps, Now()) && daemon == Serving
      ensures logged == old(logged) + old(done[pe])
    {
      ghost var s, queue := Now(), done[pe];
      ghost var rest := queue;
      steps := [];
      var length := |done[pe]|;
      while length > 0
        invariant Valid() && daemon == Serving && Runs(s, pes, steps, Now())
        invariant |rest| == length && rest <= done[pe] && logged + rest == s.logged + queue
      {
        Popping(rest, done[pe], logged);
        steps := DrainNext(pe, s, steps);
        rest := rest[1..];
        length := length - 1;
      }
    }

    method DrainNext(pe: nat, ghost s: State, ghost before: seq<Step>) returns (ghost steps: seq<Step>)
      requires Valid() && pe < pes && daemon == Serving && done[pe] != [] && Runs(s, pes, before, Now())
      modifies this`apps, this`ready, this`todo, this`slot, this`done, this`resource, this`alive, this`poison
      modifies this`executed, this`pauses, this`logged
      ensures Valid() && Runs(s, pes, steps, Now()) && daemon == Serving
      ensures logged == old(logged) + [old(done[pe][0])] && |done| == pes && old(done[pe])[1..] <= done[pe]
    {
      RunsOneMore(s, pes, before, Now(), Drain(pe));
      DrainFront(pe);
      steps := Pause(true, s, before + [Drain(pe)]);
    }

    /** Join and free the application of pill k. */
    method ReapOne(k: nat)
      requires Valid() && Enabled(Now(), pes, Reap(k))
      modifies this`apps, this`poison
      ensures Valid() && Now() == Apply(old(Now()), pes, Reap(k))
    {
      StepKeepsInv(Now(), pes, Reap(k));
      var app := apps[poison[k]];
      apps := apps[poison[k] := App(Freed, app.count, app.completed)];
      poison := Without(poison, k);
    }

    /** One pass of the retirement loop, at the pill at k; before holds the run so far. */
    method ReapPass(k: nat, ghost s: State, ghost before: seq<Step>) returns (reaped: bool, ghost steps: seq<Step>)
      requires Valid() && daemon == Serving && k < |poison| && Runs(s, pes, before, Now())
      requires SameCounts(apps, s.apps, s.poison) && Swept(s.apps, s.poison, poison, k)
      modifies this`apps, this`poison
      ensures Valid() && daemon == Serving && Runs(s, pes, steps, Now()) && SameCounts(apps, s.apps, s.poison)
      ensures |poison| == old(|poison|) - (if reaped then 1 else 0)
      ensures Swept(s.apps, s.poison, poison, if reaped then k else k + 1)
    {
      var a := poison[k];
      reaped, steps := false, before;
      if apps[a].completed == apps[a].count {
        RunsOneMore(s, pes, before, Now(), Reap(k));
        SweptReaped(s.apps, s.poison, poison, k);
        steps := before + [Reap(k)];
        ReapOne(k);
        reaped := true;
      } else {
        SweptKept(s.apps, s.poison, poison, k);
      }
    }

    /** The retirement loop: frees every application whose pill is queued and whose calls are all drained,
        and leaves exactly the other pills, in order. The daemon holds the poison queue's mutex, so the
        other threads can do anything but push a pill. */
    method ReapPoisoned() returns (ghost steps: seq<Step>)
      requires Valid() && daemon == Serving
      modifies this`apps, this`ready, this`todo, this`slot, this`done, this`resource, this`alive, this`poison
      modifies this`executed, this`pauses
      ensures Valid() && Runs(old(Now()), pes, steps, Now())
      ensures poison == Unfinished(old(apps), old(poison))
      ensures forall k :: !Enabled(Now(), pes, Reap(k))
    {
      ghost var s := Now();
      steps := [];
      SweptStart(apps, poison);
      PillsAreOver(Now(), pes);
      var k := 0;
      while k < |poison|
        invariant Valid() && daemon == Serving && Runs(s, pes, steps, Now())
        invariant SameCounts(apps, s.apps, s.poison) && Swept(s.apps, s.poison, poison, k)
        decreases |poison| - k
      {
        var reaped;
        reaped, steps := ReapPass(k, s, steps);
        steps := Pause(false, s, steps);
        if !reaped {
          k := k + 1;
        }
      }
      SweptEnd(s.apps, s.poison, poison);
      NothingToReap(s.apps, s.poison, Now(), pes);
    }

    /** One look of the exit loop at the current PE, and what follows it. */
    method ExitPass() returns (ghost step: Option<Step>)
      requires Valid() && daemon.Stopping? && daemon.pe < pes
      modifies this`daemon, this`resource
      ensures Valid()
      ensures step.Some? ==> old(Enabled(Now(), pes, step.value)) && Now() == Apply(old(Now()), pes, step.value)
      ensures step == None ==> Now() == old(Now()) && !Enabled(Now(), pes, Observe) && !Enabled(Now(), pes, SetExit)
    {
      step := None;
      var i := daemon.pe;
      if daemon.seen {
        step := Some(SetExit);
        Tell(i);
      } else if todo[i] == [] && resource[i] == IDLE {
        step := Some(Observe);
        Look(i);
      }
    }

    /** Set the PE's state to 3 and go on. */
    method Tell(i: nat)
      requires Valid() && i < pes && daemon == Stopping(i, true)
      modifies this`daemon, this`resource
      ensures Valid() && Now() == Apply(old(Now()), pes, SetExit)
    {
      StepKeepsInv(Now(), pes, SetExit);
      resource := resource[i := EXIT];
      daemon := Stopping(i + 1, false);
    }

    /** The test that the PE is idle has succeeded. */
    method Look(i: nat)
      requires Valid() && i < pes && daemon == Stopping(i, false) && todo[i] == [] && resource[i] == IDLE
      modifies this`daemon
      ensures Valid() && Now() == Apply(old(Now()), pes, Observe)
    {
      StepKeepsInv(Now(), pes, Observe);
      daemon := Stopping(i, true);
    }
  }
}
