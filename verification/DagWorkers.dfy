/** What worker threads may do between two actions of the daemon: any of their steps that are possible,
    in an order the daemon does not control. */
module DagWorkers {
  import opened Basics
  import opened DagGraph
  import opened DagSystem
  import opened DagLocation
  import opened DagCounting
  import opened DagRuns

  ghost predicate Sized(g: Graph, c: Config, s: State) {
    g.WellFormed() && c.For(g) && s.Fits(g, c)
  }

  /** A worker's step if it is possible, and nothing otherwise. */
  ghost function TryStep(g: Graph, c: Config, s: State, step: Step): State
    requires Sized(g, c, s)
  {
    if (step.Take? || step.Finish?) && Enabled(g, c, s, step) then Apply(g, c, s, step) else s
  }

  ghost function WorkersDo(g: Graph, c: Config, s: State, script: seq<Step>): (r: State)
    requires Sized(g, c, s)
    ensures Sized(g, c, r)
    decreases |script|
  {
    if script == [] then s
    else
      TryKeeps(g, c, s, script[0]);
      WorkersDo(g, c, TryStep(g, c, s, script[0]), script[1..])
  }

  /** The fields only the daemon writes are the same. */
  predicate SameFlags(s: State, s': State) {
    s'.iter == s.iter && s'.queued == s.queued && s'.arrived == s.arrived && s'.retired == s.retired
  }

  /** s' is s after steps of workers: what the daemon owns is unchanged, every PE holds as many tasks as
      before, and completed tasks have only been added behind those there were. */
  ghost predicate WorkersOnly(s: State, s': State)
    requires |s.todo| == |s.slot| == |s.done|
  {
    && SameFlags(s, s') && s'.ready == s.ready && s'.count == s.count && s'.free == s.free
    && s'.handed == s.handed && s'.drained == s.drained
    && |s'.todo| == |s'.slot| == |s'.done| == |s.todo|
    && forall pe: nat :: pe < |s.todo| ==> Load(s', pe) == Load(s, pe) && s.done[pe] <= s'.done[pe]
  }

  lemma TryKeeps(g: Graph, c: Config, s: State, step: Step)
    requires Sized(g, c, s)
    ensures Sized(g, c, TryStep(g, c, s, step)) && WorkersOnly(s, TryStep(g, c, s, step))
  {
    if (step.Take? || step.Finish?) && Enabled(g, c, s, step) {
      StepFits(g, c, s, step);
    }
  }

  lemma {:induction false} WorkersKeep(g: Graph, c: Config, s: State, script: seq<Step>)
    requires Sized(g, c, s)
    ensures WorkersOnly(s, WorkersDo(g, c, s, script))
    decreases |script|
  {
    if script != [] {
      TryKeeps(g, c, s, script[0]);
      WorkersKeep(g, c, TryStep(g, c, s, script[0]), script[1..]);
      WorkersOnlyTwice(s, TryStep(g, c, s, script[0]), WorkersDo(g, c, s, script));
    }
  }

  lemma WorkersOnlyTwice(s1: State, s2: State, s3: State)
    requires |s1.todo| == |s1.slot| == |s1.done| && WorkersOnly(s1, s2) && WorkersOnly(s2, s3)
    ensures WorkersOnly(s1, s3)
  {
  }

  lemma {:induction false} RunsAppend(g: Graph, c: Config, s: State, steps: seq<Step>, s': State, step: Step)
    requires g.WellFormed() && c.For(g) && Runs(g, c, s, steps, s') && s'.Fits(g, c) && Enabled(g, c, s', step)
    ensures Runs(g, c, s, steps + [step], Apply(g, c, s', step))
    decreases |steps|
  {
    if steps == [] {
      assert [] + [step] == [step];
      assert [step][1..] == [];
    } else {
      RunsAppend(g, c, Apply(g, c, s, steps[0]), steps[1..], s', step);
      assert (steps + [step])[1..] == steps[1..] + [step];
    }
  }

  // ---- PEs that cannot take a task ----

  /** How many tasks each PE holds. */
  function Loads(todo: seq<seq<nat>>, slot: seq<Option<nat>>, done: seq<seq<nat>>): (r: seq<nat>)
    requires |todo| == |slot| == |done|
    ensures |r| == |todo|
  {
    seq<nat>(|todo|, pe requires 0 <= pe < |todo| => |todo[pe]| + |SlotQueue(slot[pe])| + |done[pe]|)
  }

  lemma LoadsSame(s: State, s': State)
    requires |s.todo| == |s.slot| == |s.done| && WorkersOnly(s, s')
    ensures Loads(s'.todo, s'.slot, s'.done) == Loads(s.todo, s.slot, s.done)
  {
    forall pe: nat | pe < |s.todo|
      ensures Loads(s'.todo, s'.slot, s'.done)[pe] == Loads(s.todo, s.slot, s.done)[pe]
    {
      assert Load(s', pe) == Load(s, pe);
    }
  }

  lemma LoadsPush(todo: seq<seq<nat>>, slot: seq<Option<nat>>, done: seq<seq<nat>>, pe: nat, t: nat)
    requires |todo| == |slot| == |done| && pe < |todo|
    ensures Loads(todo[pe := todo[pe] + [t]], slot, done) ==
            Loads(todo, slot, done)[pe := Loads(todo, slot, done)[pe] + 1]
  {
  }

  /** pe will not take task t: the type does not fit or, without queueing, it holds something. */
  predicate Refuses(c: Config, loads: seq<nat>, t: nat, pe: nat)
    requires t < |c.canRun| && pe < |loads|
  {
    pe !in c.canRun[t] || (!c.queueing && loads[pe] > 0)
  }

  predicate NoneTakes(c: Config, loads: seq<nat>, t: nat)
    requires t < |c.canRun|
  {
    forall pe: nat :: pe < |loads| ==> Refuses(c, loads, t, pe)
  }

  lemma RefusesMeansDisabled(g: Graph, c: Config, s: State, i: nat, pe: nat)
    requires Sized(g, c, s) && i < |s.ready| && pe < c.pes
    ensures Enabled(g, c, s, Assign(i, pe)) <==> !Refuses(c, Loads(s.todo, s.slot, s.done), s.ready[i], pe)
  {
  }

  predicate Grow(loads: seq<nat>, loads': seq<nat>) {
    |loads'| == |loads| && forall pe :: 0 <= pe < |loads| ==> loads[pe] <= loads'[pe]
  }

  /** PEs only fill up while the daemon does not drain, so who refuses goes on refusing. */
  lemma StillRefused(c: Config, loads: seq<nat>, loads': seq<nat>, t: nat)
    requires t < |c.canRun| && Grow(loads, loads') && NoneTakes(c, loads, t)
    ensures NoneTakes(c, loads', t)
  {
    forall pe: nat | pe < |loads'| ensures Refuses(c, loads', t, pe) {
      assert Refuses(c, loads, t, pe);
    }
  }

  /** None of the d PEs from index from on takes task t. */
  predicate RefusedFrom(c: Config, loads: seq<nat>, t: nat, from: nat, d: nat)
    requires t < |c.canRun| && d <= |loads| && (|loads| > 0 ==> from < |loads|)
  {
    forall u: nat :: u < d ==> Refuses(c, loads, t, Around(from, u, |loads|))
  }

  lemma RefusedMore(c: Config, loads: seq<nat>, t: nat, from: nat, d: nat)
    requires t < |c.canRun| && d < |loads| && from < |loads| && RefusedFrom(c, loads, t, from, d)
    ensures Refuses(c, loads, t, Around(from, d, |loads|)) ==> RefusedFrom(c, loads, t, from, d + 1)
  {
  }

  lemma RefusedByAll(c: Config, loads: seq<nat>, t: nat, from: nat)
    requires t < |c.canRun| && (|loads| > 0 ==> from < |loads|) && RefusedFrom(c, loads, t, from, |loads|)
    ensures NoneTakes(c, loads, t)
  {
    forall pe: nat | pe < |loads| ensures Refuses(c, loads, t, pe) {
      AroundAll(from, |loads|, pe);
    }
  }
}
