/** Where tasks are: a task flagged in_ready_queue is in exactly one of the queues, once, any other
    task is in none, and every PE serves its tasks in the order they were handed to it. */
module DagLocation {
  import opened Basics
  import opened Bits
  import opened DagGraph
  import opened DagSystem

  function Bag(queues: seq<seq<nat>>): multiset<nat> {
    if queues == [] then multiset{} else multiset(queues[0]) + Bag(queues[1..])
  }

  function SlotQueue(slot: Option<nat>): seq<nat> {
    match slot case None => [] case Some(t) => [t]
  }

  function Slots(slot: seq<Option<nat>>): (r: seq<seq<nat>>)
    ensures |r| == |slot| && forall pe :: 0 <= pe < |slot| ==> r[pe] == SlotQueue(slot[pe])
  {
    seq(|slot|, pe requires 0 <= pe < |slot| => SlotQueue(slot[pe]))
  }

  /** Every entry of every queue. */
  function Everywhere(s: State): multiset<nat> {
    multiset(s.ready) + Bag(s.todo) + Bag(Slots(s.slot)) + Bag(s.done)
  }

  ghost predicate SingleLocation(g: Graph, s: State)
    requires |s.queued| == g.Size()
  {
    forall t: nat :: Everywhere(s)[t] == if t < g.Size() && s.queued[t] then 1 else 0
  }

  /** A PE's history: what was handed to it is what was drained, then completed, running, waiting. */
  predicate InOrder(handed: seq<nat>, drained: seq<nat>, done: seq<nat>, slot: Option<nat>, todo: seq<nat>) {
    handed == drained + done + SlotQueue(slot) + todo
  }

  ghost predicate Fifo(c: Config, s: State)
    requires |s.todo| == |s.slot| == |s.done| == |s.handed| == |s.drained| == c.pes
  {
    forall pe :: 0 <= pe < c.pes ==> InOrder(s.handed[pe], s.drained[pe], s.done[pe], s.slot[pe], s.todo[pe])
  }

  lemma {:induction false} BagUpdate(queues: seq<seq<nat>>, i: nat, q: seq<nat>)
    requires i < |queues|
    ensures Bag(queues[i := q]) + multiset(queues[i]) == Bag(queues) + multiset(q)
  {
    if i == 0 {
      assert queues[0 := q][1..] == queues[1..];
    } else {
      BagUpdate(queues[1..], i - 1, q);
      assert queues[i := q][1..] == queues[1..][i - 1 := q] && queues[i := q][0] == queues[0];
      assert queues[1..][i - 1] == queues[i];
      Insert(multiset(queues[0]), Bag(queues[1..][i - 1 := q]), multiset(queues[i]), Bag(queues[1..]), multiset(q));
    }
  }

  lemma Insert(x: multiset<nat>, a: multiset<nat>, b: multiset<nat>, c: multiset<nat>, d: multiset<nat>)
    requires a + b == c + d
    ensures (x + a) + b == (x + c) + d
  {
    assert (x + a) + b == x + (a + b) && (x + c) + d == x + (c + d);
  }

  lemma SlotsUpdate(slot: seq<Option<nat>>, i: nat, v: Option<nat>)
    requires i < |slot|
    ensures Slots(slot[i := v]) == Slots(slot)[i := SlotQueue(v)]
  {
  }

  lemma HeadBag(s: seq<nat>)
    requires s != []
    ensures multiset(s) == multiset{s[0]} + multiset(s[1..])
  {
    assert s == [s[0]] + s[1..];
  }

  /** Two of the four places change: what leaves one enters the other. */
  lemma Moved(a: multiset<nat>, b: multiset<nat>, c: multiset<nat>, d: multiset<nat>,
              a': multiset<nat>, b': multiset<nat>, t: nat)
    requires a' + multiset{t} == a && b' == b + multiset{t}
    ensures a' + b' + c + d == a + b + c + d
  {
  }

  lemma BagAppend(queues: seq<seq<nat>>, i: nat, t: nat)
    requires i < |queues|
    ensures Bag(queues[i := queues[i] + [t]]) == Bag(queues) + multiset{t}
  {
    var q := queues[i] + [t];
    BagUpdate(queues, i, q);
    assert multiset(q) == multiset(queues[i]) + multiset{t};
    Cancel(Bag(queues[i := q]), Bag(queues) + multiset{t}, multiset(queues[i]));
  }

  lemma BagPop(queues: seq<seq<nat>>, i: nat)
    requires i < |queues| && queues[i] != []
    ensures Bag(queues[i := queues[i][1..]]) + multiset{queues[i][0]} == Bag(queues)
  {
    var q := queues[i][1..];
    HeadBag(queues[i]);
    BagUpdate(queues, i, q);
    Cancel(Bag(queues[i := q]) + multiset{queues[i][0]}, Bag(queues), multiset(q));
  }

  lemma Cancel(a: multiset<nat>, b: multiset<nat>, c: multiset<nat>)
    requires a + c == b + c
    ensures a == b
  {
    assert a == (a + c) - c && b == (b + c) - c;
  }

  lemma AssignKeepsEverywhere(s: State, s': State, i: nat, pe: nat)
    requires i < |s.ready| && pe < |s.todo|
    requires s'.ready == Without(s.ready, i) && s'.todo == s.todo[pe := s.todo[pe] + [s.ready[i]]]
    requires s'.slot == s.slot && s'.done == s.done
    ensures Everywhere(s') == Everywhere(s)
  {
    WithoutOne(s.ready, i);
    BagAppend(s.todo, pe, s.ready[i]);
    Moved(multiset(s.ready), Bag(s.todo), Bag(Slots(s.slot)), Bag(s.done), multiset(s'.ready), Bag(s'.todo),
          s.ready[i]);
  }

  lemma TakeKeepsEverywhere(s: State, s': State, pe: nat)
    requires pe < |s.todo| == |s.slot| && s.todo[pe] != [] && s.slot[pe].None?
    requires s'.todo == s.todo[pe := s.todo[pe][1..]] && s'.slot == s.slot[pe := Some(s.todo[pe][0])]
    requires s'.ready == s.ready && s'.done == s.done
    ensures Everywhere(s') == Everywhere(s)
  {
    var t := s.todo[pe][0];
    BagPop(s.todo, pe);
    SlotsUpdate(s.slot, pe, Some(t));
    assert [] + [t] == [t];
    BagAppend(Slots(s.slot), pe, t);
    Moved(Bag(s.todo), Bag(Slots(s.slot)), multiset(s.ready), Bag(s.done), Bag(s'.todo), Bag(Slots(s'.slot)), t);
  }

  lemma FinishKeepsEverywhere(s: State, s': State, pe: nat)
    requires pe < |s.done| == |s.slot| && s.slot[pe].Some?
    requires s'.done == s.done[pe := s.done[pe] + [s.slot[pe].value]] && s'.slot == s.slot[pe := None]
    requires s'.ready == s.ready && s'.todo == s.todo
    ensures Everywhere(s') == Everywhere(s)
  {
    var t := s.slot[pe].value;
    SlotsUpdate(s.slot, pe, None);
    assert Slots(s.slot)[pe][1..] == [];
    BagPop(Slots(s.slot), pe);
    BagAppend(s.done, pe, t);
    Moved(Bag(Slots(s.slot)), Bag(s.done), multiset(s.ready), Bag(s.todo), Bag(Slots(s'.slot)), Bag(s'.done), t);
  }

  lemma MoveKeepsEverywhere(g: Graph, c: Config, s: State, step: Step)
    requires g.WellFormed() && c.For(g) && s.Fits(g, c) && Enabled(g, c, s, step)
    requires step.Assign? || step.Take? || step.Finish?
    ensures Everywhere(Apply(g, c, s, step)) == Everywhere(s)
  {
    match step
    case Assign(i, pe) => AssignKeepsEverywhere(s, Apply(g, c, s, step), i, pe);
    case Take(pe) => TakeKeepsEverywhere(s, Apply(g, c, s, step), pe);
    case Finish(pe) => FinishKeepsEverywhere(s, Apply(g, c, s, step), pe);
  }

  /** Pushing a list of unqueued tasks, each at most once, keeps the invariant. */
  lemma PushKeepsLocation(g: Graph, s: State, list: seq<nat>)
    requires |s.queued| == g.Size() && SingleLocation(g, s)
    requires forall t: nat :: multiset(list)[t] <= 1
    requires forall t: nat :: t in list ==> t < g.Size() && !s.queued[t]
    ensures SingleLocation(g, Push(s, list))
  {
    var s' := Push(s, list);
    assert Everywhere(s') == Everywhere(s) + multiset(list);
    forall t: nat
      ensures Everywhere(s')[t] == if t < g.Size() && s'.queued[t] then 1 else 0
    {
      assert t in list <==> t in multiset(list);
    }
  }

  lemma PopEverywhere(s: State, s': State, pe: nat)
    requires pe < |s.done| && s.done[pe] != []
    requires s'.done == s.done[pe := s.done[pe][1..]] && s'.ready == s.ready && s'.todo == s.todo && s'.slot == s.slot
    ensures Everywhere(s') + multiset{s.done[pe][0]} == Everywhere(s)
  {
    BagPop(s.done, pe);
  }

  lemma PopKeepsLocation(g: Graph, c: Config, s: State, s': State, pe: nat)
    requires s.Fits(g, c) && SingleLocation(g, s) && pe < c.pes && s.done[pe] != []
    requires s'.done == s.done[pe := s.done[pe][1..]] && s'.ready == s.ready && s'.todo == s.todo && s'.slot == s.slot
    requires s.done[pe][0] < g.Size() && s'.queued == s.queued[s.done[pe][0] := false]
    ensures s.queued[s.done[pe][0]] && SingleLocation(g, s')
  {
    var t := s.done[pe][0];
    PopEverywhere(s, s', pe);
    assert (Everywhere(s') + multiset{t})[t] >= 1;
    assert Everywhere(s)[t] == 1;
    forall u: nat
      ensures Everywhere(s')[u] == if u < g.Size() && s'.queued[u] then 1 else 0
    {
      assert Everywhere(s)[u] == Everywhere(s')[u] + if u == t then 1 else 0;
    }
  }

  lemma StepKeepsLocation(g: Graph, c: Config, s: State, step: Step)
    requires g.WellFormed() && c.For(g) && s.Fits(g, c) && SingleLocation(g, s) && Enabled(g, c, s, step)
    requires step.Arrive? ==> forall t :: 0 <= t < g.Size() && g.owner[t] == step.app ==> !s.queued[t]
    ensures SingleLocation(g, Apply(g, c, s, step))
  {
    match step
    case Arrive(a) =>
      ArrivingOnce(g, s.iter, a, g.Size());
      PushKeepsLocation(g, s, Arriving(g, s.iter, a, g.Size()));
    case Queue(t) =>
      PushKeepsLocation(g, s, [t]);
    case Drain(pe) =>
      DrainKeepsLocation(g, c, s, pe);
    case _ =>
      MoveKeepsEverywhere(g, c, s, step);
  }

  lemma DrainKeepsLocation(g: Graph, c: Config, s: State, pe: nat)
    requires g.WellFormed() && c.For(g) && s.Fits(g, c) && SingleLocation(g, s) && pe < c.pes && s.done[pe] != []
    ensures SingleLocation(g, Apply(g, c, s, Drain(pe)))
  {
    CompletedKeepsLocation(g, c, s, Popped(c, s, pe), pe);
  }

  lemma CompletedKeepsLocation(g: Graph, c: Config, s: State, s1: State, pe: nat)
    requires g.WellFormed() && c.For(g) && s.Fits(g, c) && SingleLocation(g, s) && pe < c.pes && s.done[pe] != []
    requires s1 == Popped(c, s, pe)
    ensures SingleLocation(g, Completed(g, s1, s.done[pe][0]))
  {
    var t := s.done[pe][0];
    PopKeepsLocation(g, c, s, Counted(g, s1, t), pe);
    WakeKeepsLocation(g, Counted(g, s1, t), t);
    RetireKeepsLocation(g, Wake(g, Counted(g, s1, t), t), g.owner[t]);
  }

  lemma RetireKeepsLocation(g: Graph, s: State, a: nat)
    requires |s.queued| == g.Size() && SingleLocation(g, s) && a < |s.count| == |g.apps|
    ensures SingleLocation(g, Retire(g, s, a))
  {
    assert Everywhere(Retire(g, s, a)) == Everywhere(s);
  }

  lemma WakeKeepsLocation(g: Graph, s: State, t: nat)
    requires g.WellFormed() && t < g.Size() && |s.queued| == |s.iter| == g.Size() && SingleLocation(g, s)
    ensures SingleLocation(g, Wake(g, s, t))
  {
    if g.ModeOf(t) == NonStreaming {
      WokenExactly(g, s.iter, s.queued, g.Succ(t));
      PushKeepsLocation(g, s, Woken(g, s.iter, s.queued, g.Succ(t)));
    }
  }

  lemma StepKeepsFifo(g: Graph, c: Config, s: State, step: Step)
    requires g.WellFormed() && c.For(g) && s.Fits(g, c) && Fifo(c, s) && Enabled(g, c, s, step)
    ensures Apply(g, c, s, step).Fits(g, c) && Fifo(c, Apply(g, c, s, step))
  {
    StepFits(g, c, s, step);
    var s' := Apply(g, c, s, step);
    match step
    case Assign(i, pe) => AssignKeepsFifo(c, s, s', s.ready[i], pe);
    case Take(pe) => TakeKeepsFifo(c, s, s', pe);
    case Finish(pe) => FinishKeepsFifo(c, s, s', pe);
    case Drain(pe) => DrainKeepsFifo(g, c, s, pe);
    case _ =>
  }

  lemma AssignInOrder(handed: seq<nat>, drained: seq<nat>, done: seq<nat>, slot: Option<nat>, todo: seq<nat>, t: nat)
    requires InOrder(handed, drained, done, slot, todo)
    ensures InOrder(handed + [t], drained, done, slot, todo + [t])
  {
    ConcatAssoc(drained + done + SlotQueue(slot), todo, [t]);
  }

  lemma TakeInOrder(handed: seq<nat>, drained: seq<nat>, done: seq<nat>, todo: seq<nat>)
    requires InOrder(handed, drained, done, None, todo) && todo != []
    ensures InOrder(handed, drained, done, Some(todo[0]), todo[1..])
  {
    assert todo == [todo[0]] + todo[1..];
  }

  lemma FinishInOrder(handed: seq<nat>, drained: seq<nat>, done: seq<nat>, t: nat, todo: seq<nat>)
    requires InOrder(handed, drained, done, Some(t), todo)
    ensures InOrder(handed, drained, done + [t], None, todo)
  {
    ConcatAssoc(drained, done, [t]);
  }

  lemma DrainInOrder(handed: seq<nat>, drained: seq<nat>, done: seq<nat>, slot: Option<nat>, todo: seq<nat>)
    requires InOrder(handed, drained, done, slot, todo) && done != []
    ensures InOrder(handed, drained + [done[0]], done[1..], slot, todo)
  {
    assert done == [done[0]] + done[1..];
    ConcatAssoc(drained, [done[0]], done[1..]);
  }

  lemma AssignKeepsFifo(c: Config, s: State, s': State, t: nat, pe: nat)
    requires |s.todo| == |s.slot| == |s.done| == |s.handed| == |s.drained| == c.pes && Fifo(c, s) && pe < c.pes
    requires s'.todo == s.todo[pe := s.todo[pe] + [t]] && s'.handed == s.handed[pe := s.handed[pe] + [t]]
    requires s'.slot == s.slot && s'.done == s.done && s'.drained == s.drained
    ensures Fifo(c, s')
  {
    AssignInOrder(s.handed[pe], s.drained[pe], s.done[pe], s.slot[pe], s.todo[pe], t);
  }

  lemma TakeKeepsFifo(c: Config, s: State, s': State, pe: nat)
    requires |s.todo| == |s.slot| == |s.done| == |s.handed| == |s.drained| == c.pes && Fifo(c, s)
    requires pe < c.pes && s.slot[pe].None? && s.todo[pe] != []
    requires s'.todo == s.todo[pe := s.todo[pe][1..]] && s'.slot == s.slot[pe := Some(s.todo[pe][0])]
    requires s'.handed == s.handed && s'.done == s.done && s'.drained == s.drained
    ensures Fifo(c, s')
  {
    TakeInOrder(s.handed[pe], s.drained[pe], s.done[pe], s.todo[pe]);
  }

  lemma FinishKeepsFifo(c: Config, s: State, s': State, pe: nat)
    requires |s.todo| == |s.slot| == |s.done| == |s.handed| == |s.drained| == c.pes && Fifo(c, s)
    requires pe < c.pes && s.slot[pe].Some?
    requires s'.done == s.done[pe := s.done[pe] + [s.slot[pe].value]] && s'.slot == s.slot[pe := None]
    requires s'.handed == s.handed && s'.todo == s.todo && s'.drained == s.drained
    ensures Fifo(c, s')
  {
    FinishInOrder(s.handed[pe], s.drained[pe], s.done[pe], s.slot[pe].value, s.todo[pe]);
  }

  lemma DrainKeepsFifo(g: Graph, c: Config, s: State, pe: nat)
    requires g.WellFormed() && c.For(g) && s.Fits(g, c) && Fifo(c, s) && pe < c.pes && s.done[pe] != []
    ensures var s' := Apply(g, c, s, Drain(pe)); s'.Fits(g, c) && Fifo(c, s')
  {
    StepFits(g, c, s, Drain(pe));
    PopKeepsFifo(c, s, pe);
    CompletedKeeps(g, Popped(c, s, pe), s.done[pe][0]);
  }

  lemma PopKeepsFifo(c: Config, s: State, pe: nat)
    requires |s.todo| == |s.slot| == |s.done| == |s.handed| == |s.drained| == c.pes && Fifo(c, s)
    requires pe < c.pes && s.done[pe] != []
    ensures Fifo(c, Popped(c, s, pe))
  {
    DrainInOrder(s.handed[pe], s.drained[pe], s.done[pe], s.slot[pe], s.todo[pe]);
  }

  lemma {:induction false} EmptyBag(queues: seq<seq<nat>>)
    requires forall k :: 0 <= k < |queues| ==> queues[k] == []
    ensures Bag(queues) == multiset{}
  {
    if queues != [] {
      EmptyBag(queues[1..]);
    }
  }

  lemma InitLocated(g: Graph, c: Config)
    ensures SingleLocation(g, Init(g, c)) && Fifo(c, Init(g, c))
  {
    var s := Init(g, c);
    EmptyBag(s.todo);
    EmptyBag(s.done);
    EmptyBag(Slots(s.slot));
  }
}
