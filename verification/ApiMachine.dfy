/** Tasks, PEs and the estimates that the API runtime's list schedulers work from, and what each
    policy's sequence of choices satisfies. */
module ApiMachine {
  import opened Basics

  /** A kernel call: its API type and the resource types it has an implementation for. */
  datatype Task = Task(id: nat, api: nat, supported: set<nat>)

  /** One successful assignment; at is the clock reading that updated the PE's availability. */
  datatype Pick = Pick(task: Task, pe: nat, at: int)

  datatype Policy = Simple | Random | Met | HeftRt | Eft | Etf

  /** types: each PE's resource type; cost: the table of getDashExecTime, in nanoseconds. */
  datatype Machine = Machine(types: seq<nat>, cost: (nat, nat) -> nat, policy: Policy) {
    function Pes(): nat { |types| }

    /** The policies that maintain thread_avail_time. */
    predicate Timed() { policy.Eft? || policy.Etf? || policy.HeftRt? }

    predicate Supports(task: Task, pe: nat)
      requires pe < Pes()
    {
      types[pe] in task.supported
    }

    function Cost(task: Task, pe: nat): nat
      requires pe < Pes()
    {
      cost(task.api, types[pe])
    }

    /** When task would finish on pe if handed over at the given time. */
    function Finish(avail: seq<int>, time: int, task: Task, pe: nat): int
      requires pe < Pes() == |avail|
    {
      Later(time, avail[pe]) + Cost(task, pe)
    }

    function After(avail: seq<int>, p: Pick): (r: seq<int>)
      requires p.pe < Pes() == |avail|
      ensures |r| == |avail|
    {
      if Timed() then avail[p.pe := Finish(avail, p.at, p.task, p.pe)] else avail
    }

    predicate OnPes(picks: seq<Pick>) {
      forall i :: 0 <= i < |picks| ==> picks[i].pe < Pes()
    }

    function AfterAll(avail: seq<int>, picks: seq<Pick>): (r: seq<int>)
      requires OnPes(picks) && |avail| == Pes()
      ensures |r| == |avail|
      decreases |picks|
    {
      if picks == [] then avail else After(AfterAll(avail, Front(picks)), Last(picks))
    }

    function Placed(todo: seq<seq<Task>>, picks: seq<Pick>): (r: seq<seq<Task>>)
      requires OnPes(picks) && |todo| == Pes()
      ensures |r| == |todo|
      decreases |picks|
    {
      if picks == [] then todo
      else
        var before, p := Placed(todo, Front(picks)), Last(picks);
        before[p.pe := before[p.pe] + [p.task]]
    }

    /** From the first three to the next three by placing picks. */
    predicate Did(ready0: seq<Task>, todo0: seq<seq<Task>>, avail0: seq<int>,
                  ready: seq<Task>, todo: seq<seq<Task>>, avail: seq<int>, picks: seq<Pick>)
      requires |todo0| == |avail0| == Pes()
    {
      && OnPes(picks) && Compatible(picks)
      && multiset(ready) + Tasks(picks) == multiset(ready0)
      && todo == Placed(todo0, picks)
      && avail == AfterAll(avail0, picks)
    }

    /** Every task can run on some configured PE. */
    ghost predicate Runnable(tasks: seq<Task>) {
      forall t :: t in tasks ==> RunnableTask(t)
    }

    ghost predicate RunnableTask(t: Task) {
      exists pe: nat :: pe < Pes() && Supports(t, pe)
    }

    // ---- what each policy's choices satisfy ----

    predicate Compatible(picks: seq<Pick>)
      requires OnPes(picks)
    {
      forall i :: 0 <= i < |picks| ==> Supports(picks[i].task, picks[i].pe)
    }

    /** pe finishes task no later than any other PE that supports it. */
    ghost predicate EarliestPe(avail: seq<int>, now: int, task: Task, pe: nat)
      requires |avail| == Pes()
    {
      && pe < Pes() && Supports(task, pe)
      && forall k: nat :: k < Pes() && Supports(task, k) ==> Finish(avail, now, task, pe) <= Finish(avail, now, task, k)
    }

    /** Of the earliest-finishing PEs the one with the highest index, as EFT chooses. */
    ghost predicate EarliestTop(avail: seq<int>, now: int, task: Task, pe: nat)
      requires |avail| == Pes()
    {
      && EarliestPe(avail, now, task, pe)
      && forall k: nat :: pe < k < Pes() && Supports(task, k) ==>
        Finish(avail, now, task, pe) < Finish(avail, now, task, k)
    }

    /** The one with the lowest index, as HEFT_RT chooses. */
    ghost predicate EarliestBottom(avail: seq<int>, now: int, task: Task, pe: nat)
      requires |avail| == Pes()
    {
      && EarliestPe(avail, now, task, pe)
      && forall k: nat :: k < pe && Supports(task, k) ==> Finish(avail, now, task, pe) < Finish(avail, now, task, k)
    }

    /** EFT and HEFT_RT: each pick goes to an earliest-finishing PE, given the picks before it; of
        equals the highest or the lowest. */
    ghost predicate EarliestChoices(avail: seq<int>, now: int, picks: seq<Pick>)
      requires OnPes(picks) && |avail| == Pes()
      decreases |picks|
    {
      picks == [] ||
      (EarliestChoices(avail, now, Front(picks))
       && EarliestOne(AfterAll(avail, Front(picks)), now, Last(picks).task, Last(picks).pe))
    }

    ghost predicate EarliestOne(avail: seq<int>, now: int, task: Task, pe: nat)
      requires |avail| == Pes()
    {
      if policy == Eft then EarliestTop(avail, now, task, pe) else EarliestBottom(avail, now, task, pe)
    }

    /** ETF: each pick is also the earliest over all tasks still in the queue. */
    ghost predicate GlobalChoices(avail: seq<int>, now: int, queue: multiset<Task>, picks: seq<Pick>)
      requires OnPes(picks) && |avail| == Pes()
      decreases |picks|
    {
      picks == [] ||
      (GlobalChoices(avail, now, queue, Front(picks))
       && GlobalMinimum(AfterAll(avail, Front(picks)), now, queue - Tasks(Front(picks)),
                        Last(picks).task, Last(picks).pe))
    }

    ghost predicate GlobalMinimum(avail: seq<int>, now: int, queue: multiset<Task>, task: Task, pe: nat)
      requires |avail| == Pes()
    {
      && task in queue && pe < Pes() && Supports(task, pe)
      && forall t, k: nat :: t in queue && k < Pes() && Supports(t, k) ==>
           Finish(avail, now, task, pe) <= Finish(avail, now, t, k)
    }

    /** The pair ETF's two loops settle on: of the earliest the first in the queue, on the lowest PE. */
    ghost predicate FirstMinimum(avail: seq<int>, now: int, queue: seq<Task>, i: nat, pe: nat)
      requires |avail| == Pes()
    {
      && i < |queue| && pe < Pes() && Supports(queue[i], pe)
      && forall t: nat, k: nat :: t < |queue| && k < Pes() && Supports(queue[t], k) ==>
           NotBefore(avail, now, queue, i, pe, t, k)
    }

    /** The pair i, pe finishes no later than t, k, and earlier if it comes after it. */
    predicate NotBefore(avail: seq<int>, now: int, queue: seq<Task>, i: nat, pe: nat, t: nat, k: nat)
      requires |avail| == Pes() && i < |queue| && t < |queue| && pe < Pes() && k < Pes()
    {
      var f, g := Finish(avail, now, queue[i], pe), Finish(avail, now, queue[t], k);
      if t < i || (t == i && k < pe) then f < g else f <= g
    }

    predicate HasType(task: Task, resource: nat) {
      resource in types && resource in task.supported
    }

    /** Of the configured types that task supports, none costs less. */
    ghost predicate CheapestType(task: Task, resource: nat) {
      HasType(task, resource)
      && forall k: nat :: k < Pes() && Supports(task, k) ==> cost(task.api, resource) <= Cost(task, k)
    }

    /** Of the cheapest PEs that support task the one with the highest index. */
    ghost predicate CheapestTop(task: Task, pe: nat) {
      && pe < Pes() && Supports(task, pe) && CheapestPe(task, pe)
      && forall k: nat :: pe < k < Pes() && Supports(task, k) ==> Cost(task, pe) < Cost(task, k)
    }

    /** The resource type MET settles on; type 0 if no PE supports task. */
    ghost predicate MetType(task: Task, resource: nat) {
      if RunnableTask(task) then exists pe: nat :: CheapestTop(task, pe) && types[pe] == resource else resource == 0
    }

    /** MET: each pick goes to a PE of the type MET settles on, so none that supports the task costs less. */
    ghost predicate CheapestChoices(picks: seq<Pick>)
      requires OnPes(picks)
    {
      forall i :: 0 <= i < |picks| ==> CheapestChoice(picks[i])
    }

    ghost predicate CheapestChoice(p: Pick)
      requires p.pe < Pes()
    {
      MetType(p.task, types[p.pe]) && CheapestPe(p.task, p.pe)
    }

    ghost predicate CheapestPe(task: Task, pe: nat)
      requires pe < Pes()
    {
      forall k: nat :: k < Pes() && Supports(task, k) ==> Cost(task, pe) <= Cost(task, k)
    }
  }

  function Later(a: int, b: int): int { if a >= b then a else b }

  function Front<T>(s: seq<T>): (r: seq<T>)
    requires s != []
    ensures |r| == |s| - 1
  {
    seq(|s| - 1, i requires 0 <= i < |s| - 1 => s[i])
  }

  function Last<T>(s: seq<T>): T
    requires s != []
  {
    s[|s| - 1]
  }

  function Tasks(picks: seq<Pick>): multiset<Task>
    decreases |picks|
  {
    if picks == [] then multiset{} else Tasks(Front(picks)) + multiset{Last(picks).task}
  }

  lemma OneMore<T>(s: seq<T>, x: T)
    ensures s + [x] != [] && Front(s + [x]) == s && Last(s + [x]) == x
  {
  }

  /** The tasks of picks, in the order they were placed. */
  function Order(picks: seq<Pick>): seq<Task> {
    seq(|picks|, i requires 0 <= i < |picks| => picks[i].task)
  }

  lemma SameTasks(m: Machine, s: seq<Task>, r: seq<Task>)
    requires multiset(s) == multiset(r) && m.Runnable(s)
    ensures m.Runnable(r)
  {
    forall t | t in r ensures m.RunnableTask(t) {
      assert t in multiset(s);
    }
  }

  lemma WithoutRunnable(m: Machine, s: seq<Task>, i: nat)
    requires i < |s| && m.Runnable(s)
    ensures m.Runnable(Without(s, i))
  {
  }

  lemma DidNothing(m: Machine, q: bool, ready: seq<Task>, todo: seq<seq<Task>>, avail: seq<int>)
    requires |todo| == |avail| == m.Pes()
    ensures m.Did(ready, todo, avail, ready, todo, avail, [])
    ensures Walk(m, q, ready, 0, ready, 0, [])
  {
    SameRestMeans(ready, 0, ready, 0);
  }

  lemma DidNext(m: Machine, ready0: seq<Task>, todo0: seq<seq<Task>>, avail0: seq<int>,
                ready: seq<Task>, todo: seq<seq<Task>>, avail: seq<int>, i: nat, picks: seq<Pick>, p: Pick)
    requires |todo0| == |avail0| == m.Pes() && m.Did(ready0, todo0, avail0, ready, todo, avail, picks)
    requires i < |ready| && p.task == ready[i] && p.pe < m.Pes() && m.Supports(p.task, p.pe)
    ensures m.Did(ready0, todo0, avail0, Without(ready, i), todo[p.pe := todo[p.pe] + [p.task]], m.After(avail, p),
                  picks + [p])
  {
    OneMore(picks, p);
    WithoutOne(ready, i);
  }

  /** Without queueing, only idle PEs got a task, and only one each. */
  ghost predicate AtMostOne(busy: seq<bool>, todo0: seq<seq<Task>>, todo: seq<seq<Task>>) {
    && |todo| == |busy| == |todo0|
    && forall pe :: 0 <= pe < |todo| ==>
         todo[pe] == todo0[pe] || (!busy[pe] && todo0[pe] == [] && |todo[pe]| == 1)
  }

  lemma AtMostOneNext(busy: seq<bool>, todo0: seq<seq<Task>>, todo: seq<seq<Task>>, pe: nat, t: Task)
    requires AtMostOne(busy, todo0, todo) && pe < |todo| && !busy[pe] && todo[pe] == []
    ensures AtMostOne(busy, todo0, todo[pe := todo[pe] + [t]])
  {
  }

  // ---- a walk along the ready queue ----

  /** Of the first n tasks of s, those that some PE supports, or those that none does, in order. */
  ghost function Only(m: Machine, s: seq<Task>, n: nat, runnable: bool): seq<Task>
    requires n <= |s|
  {
    if n == 0 then []
    else Only(m, s, n - 1, runnable) + if m.RunnableTask(s[n - 1]) == runnable then [s[n - 1]] else []
  }

  /** From i on, s is as r from j on. */
  predicate SameRest(s: seq<Task>, i: nat, r: seq<Task>, j: nat)
    requires i <= |s| && j <= |r|
    decreases |s| - i
  {
    |s| - i == |r| - j && (i == |s| || (s[i] == r[j] && SameRest(s, i + 1, r, j + 1)))
  }

  lemma {:induction false} SameRestMeans(s: seq<Task>, i: nat, r: seq<Task>, j: nat)
    requires i <= |s| && j <= |r|
    ensures SameRest(s, i, r, j) <==> s[i..] == r[j..]
    decreases |s| - i
  {
    if |s| - i == |r| - j && i < |s| {
      SameRestMeans(s, i + 1, r, j + 1);
      assert s[i..] == [s[i]] + s[i + 1..];
      assert r[j..] == [r[j]] + r[j + 1..];
      assert s[i..][0] == s[i] && r[j..][0] == r[j];
      assert s[i..][1..] == s[i + 1..] && r[j..][1..] == r[j + 1..];
    }
    assert |s[i..]| == |s| - i && |r[j..]| == |r| - j;
  }

  lemma SameRestErased(s: seq<Task>, i: nat, r: seq<Task>, j: nat)
    requires i < |s| && j <= |r| && SameRest(s, i, r, j)
    ensures j < |r| && SameRest(Without(s, i), i, r, j + 1)
  {
    SameRestMeans(s, i + 1, r, j + 1);
    SameRestMeans(Without(s, i), i, r, j + 1);
    assert Without(s, i)[i..] == s[i + 1..];
  }

  /** With the queue at ready0 when the walk began and d tasks visited, ready[i..] is still to come.
      With queueing on, every visited task has been placed if any PE supports it. */
  ghost predicate Walk(m: Machine, queueing: bool, ready0: seq<Task>, d: nat, ready: seq<Task>, i: nat,
                       picks: seq<Pick>) {
    && d <= |ready0| && i <= |ready| && SameRest(ready, i, ready0, d)
    && (queueing ==> Parted(m, ready0, d, ready, i, picks))
  }

  /** Each of the first d tasks of ready0 went, in order, to picks if a PE supports it, else it is
      among the first i of s. */
  ghost predicate Parted(m: Machine, ready0: seq<Task>, d: nat, s: seq<Task>, i: nat, picks: seq<Pick>)
    requires d <= |ready0| && i <= |s|
    decreases d
  {
    if d == 0 then i == 0 && picks == []
    else if m.RunnableTask(ready0[d - 1]) then
      picks != [] && Last(picks).task == ready0[d - 1] && Parted(m, ready0, d - 1, s, i, Front(picks))
    else
      i != 0 && s[i - 1] == ready0[d - 1] && Parted(m, ready0, d - 1, s, i - 1, picks)
  }

  lemma {:induction false} PartedMeans(m: Machine, ready0: seq<Task>, d: nat, s: seq<Task>, i: nat, picks: seq<Pick>)
    requires d <= |ready0| && i <= |s| && Parted(m, ready0, d, s, i, picks)
    ensures s[..i] == Only(m, ready0, d, false) && Order(picks) == Only(m, ready0, d, true)
    decreases d
  {
    if d != 0 {
      if m.RunnableTask(ready0[d - 1]) {
        PartedMeans(m, ready0, d - 1, s, i, Front(picks));
        assert Order(picks) == Order(Front(picks)) + [Last(picks).task];
      } else {
        PartedMeans(m, ready0, d - 1, s, i - 1, picks);
        assert s[..i] == s[..i - 1] + [s[i - 1]];
      }
    }
  }

  lemma {:induction false} PartedErased(m: Machine, ready0: seq<Task>, d: nat, s: seq<Task>, i: nat, k: nat,
                                        picks: seq<Pick>)
    requires d <= |ready0| && i <= k < |s| && Parted(m, ready0, d, s, i, picks)
    ensures Parted(m, ready0, d, Without(s, k), i, picks)
    decreases d
  {
    if d != 0 {
      if m.RunnableTask(ready0[d - 1]) {
        PartedErased(m, ready0, d - 1, s, i, k, Front(picks));
      } else {
        PartedErased(m, ready0, d - 1, s, i - 1, k, picks);
      }
    }
  }

  lemma WalkPlaced(m: Machine, q: bool, ready0: seq<Task>, d: nat, ready: seq<Task>, i: nat, picks: seq<Pick>, p: Pick)
    requires Walk(m, q, ready0, d, ready, i, picks) && i < |ready| && p.task == ready[i] && m.RunnableTask(ready[i])
    ensures Walk(m, q, ready0, d + 1, Without(ready, i), i, picks + [p])
  {
    SameRestErased(ready, i, ready0, d);
    OneMore(picks, p);
    if q {
      PartedErased(m, ready0, d, ready, i, i, picks);
    }
  }

  lemma WalkSkipped(m: Machine, q: bool, ready0: seq<Task>, d: nat, ready: seq<Task>, i: nat, picks: seq<Pick>)
    requires Walk(m, q, ready0, d, ready, i, picks) && i < |ready| && (q ==> !m.RunnableTask(ready[i]))
    ensures Walk(m, q, ready0, d + 1, ready, i + 1, picks)
  {
  }

  lemma WalkEnds(m: Machine, q: bool, ready0: seq<Task>, d: nat, ready: seq<Task>, i: nat, picks: seq<Pick>)
    requires Walk(m, q, ready0, d, ready, i, picks) && i == |ready|
    ensures q ==> Drained(m, ready0, ready, picks)
  {
    if q {
      PartedMeans(m, ready0, d, ready, i, picks);
      assert ready[..i] == ready;
    }
  }

  /** What a queueing round leaves: the tasks no PE supports; all others were placed, in order. */
  ghost predicate Drained(m: Machine, ready0: seq<Task>, ready: seq<Task>, picks: seq<Pick>) {
    ready == Only(m, ready0, |ready0|, false) && Order(picks) == Only(m, ready0, |ready0|, true)
  }

  lemma {:induction false} AllRunnable(m: Machine, s: seq<Task>, n: nat)
    requires n <= |s| && m.Runnable(s)
    ensures Only(m, s, n, true) == s[..n] && Only(m, s, n, false) == []
  {
    if n != 0 {
      AllRunnable(m, s, n - 1);
      assert s[..n] == s[..n - 1] + [s[n - 1]];
    }
  }

  lemma WalkEndsRunnable(m: Machine, q: bool, ready0: seq<Task>, d: nat, ready: seq<Task>, i: nat, picks: seq<Pick>)
    requires Walk(m, q, ready0, d, ready, i, picks) && i == |ready| && m.Runnable(ready0)
    ensures q ==> ready == [] && Order(picks) == ready0
  {
    WalkEnds(m, q, ready0, d, ready, i, picks);
    AllRunnable(m, ready0, |ready0|);
    assert ready0[..|ready0|] == ready0;
  }

  lemma OneMetType(m: Machine, task: Task, a: nat, b: nat)
    requires m.MetType(task, a) && m.MetType(task, b)
    ensures a == b
  {
    if m.RunnableTask(task) {
      var p: nat :| m.CheapestTop(task, p) && m.types[p] == a;
      var q: nat :| m.CheapestTop(task, q) && m.types[q] == b;
      assert p == q;
    }
  }

  // ---- the first pick ----

  lemma FirstIsGlobal(m: Machine, avail: seq<int>, now: int, queue: seq<Task>, i: nat, pe: nat)
    requires |avail| == m.Pes() && m.FirstMinimum(avail, now, queue, i, pe)
    ensures m.GlobalMinimum(avail, now, multiset(queue), queue[i], pe)
  {
    forall t, k: nat | t in multiset(queue) && k < m.Pes() && m.Supports(t, k)
      ensures m.Finish(avail, now, queue[i], pe) <= m.Finish(avail, now, t, k)
    {
      var u: nat :| u < |queue| && queue[u] == t;
      assert m.NotBefore(avail, now, queue, i, pe, u, k);
    }
  }

  lemma OneFirstMinimum(m: Machine, avail: seq<int>, now: int, queue: seq<Task>, i: nat, pe: nat, i': nat, pe': nat)
    requires |avail| == m.Pes() && m.FirstMinimum(avail, now, queue, i, pe)
             && m.FirstMinimum(avail, now, queue, i', pe')
    ensures i == i' && pe == pe'
  {
    assert m.NotBefore(avail, now, queue, i, pe, i', pe');
    assert m.NotBefore(avail, now, queue, i', pe', i, pe);
  }

  lemma {:induction false} FirstChoice(m: Machine, avail: seq<int>, now: int, picks: seq<Pick>)
    requires m.OnPes(picks) && |avail| == m.Pes() && m.EarliestChoices(avail, now, picks) && picks != []
    ensures m.EarliestOne(avail, now, picks[0].task, picks[0].pe)
    decreases |picks|
  {
    if |picks| > 1 {
      FirstChoice(m, avail, now, Front(picks));
    } else {
      assert Front(picks) == [];
    }
  }

  lemma {:induction false} PickedTask(picks: seq<Pick>, i: nat)
    requires i < |picks|
    ensures picks[i].task in Tasks(picks)
    decreases |picks|
  {
    if i < |picks| - 1 {
      PickedTask(Front(picks), i);
    }
  }

  /** A PE that was picked has got something. */
  lemma {:induction false} PickedPeGrows(m: Machine, todo: seq<seq<Task>>, picks: seq<Pick>, pe: nat)
    requires m.OnPes(picks) && |todo| == m.Pes() && pe < m.Pes()
    ensures |m.Placed(todo, picks)[pe]| >= |todo[pe]|
    ensures (exists i :: 0 <= i < |picks| && picks[i].pe == pe) ==> |m.Placed(todo, picks)[pe]| > |todo[pe]|
    decreases |picks|
  {
    if picks != [] {
      PickedPeGrows(m, todo, Front(picks), pe);
      if i: nat :| i < |picks| && picks[i].pe == pe {
        assert i < |picks| - 1 ==> Front(picks)[i].pe == pe;
      }
    }
  }

  /** Its task came from the queue and, without queueing, its PE was idle when the round began. */
  lemma FirstPlaced(m: Machine, ready0: seq<Task>, todo0: seq<seq<Task>>, avail0: seq<int>,
                    ready: seq<Task>, todo: seq<seq<Task>>, avail: seq<int>, picks: seq<Pick>, busy: seq<bool>)
    requires |todo0| == |avail0| == m.Pes() && m.Did(ready0, todo0, avail0, ready, todo, avail, picks) && picks != []
    ensures picks[0].task in ready0 && picks[0].pe < m.Pes() && m.Supports(picks[0].task, picks[0].pe)
    ensures AtMostOne(busy, todo0, todo) ==> !busy[picks[0].pe] && todo0[picks[0].pe] == []
  {
    PickedTask(picks, 0);
    assert picks[0].task in multiset(ready) + Tasks(picks);
    assert picks[0].task in multiset(ready0);
    PickedPeGrows(m, todo0, picks, picks[0].pe);
  }

  // ---- one more choice ----

  lemma EarliestNext(m: Machine, avail: seq<int>, now: int, picks: seq<Pick>, p: Pick)
    requires m.OnPes(picks) && |avail| == m.Pes() && m.EarliestChoices(avail, now, picks)
    requires m.EarliestOne(m.AfterAll(avail, picks), now, p.task, p.pe)
    ensures m.OnPes(picks + [p]) && m.EarliestChoices(avail, now, picks + [p])
  {
    OneMore(picks, p);
  }

  lemma GlobalNext(m: Machine, avail: seq<int>, now: int, queue: multiset<Task>, picks: seq<Pick>, p: Pick)
    requires m.OnPes(picks) && |avail| == m.Pes() && m.GlobalChoices(avail, now, queue, picks)
    requires m.GlobalMinimum(m.AfterAll(avail, picks), now, queue - Tasks(picks), p.task, p.pe)
    ensures m.OnPes(picks + [p]) && m.GlobalChoices(avail, now, queue, picks + [p])
  {
    OneMore(picks, p);
  }

  // ---- taking turns ----

  /** pe is the first PE from c on that supports task. */
  predicate FirstSupporting(m: Machine, c: nat, task: Task, pe: nat)
    requires c < m.Pes() && pe < m.Pes()
  {
    m.Supports(task, pe)
    && exists d: nat :: d < m.Pes() && Around(c, d, m.Pes()) == pe && NoneBefore(m, c, task, d)
  }

  predicate NoneBefore(m: Machine, c: nat, task: Task, d: nat)
    requires c < m.Pes() && d <= m.Pes()
  {
    forall u: nat :: u < d ==> !m.Supports(task, Around(c, u, m.Pes()))
  }

  /** Where a turn-taking cursor stands after picks. */
  function Cursor(m: Machine, c: nat, picks: seq<Pick>): (r: nat)
    requires m.OnPes(picks) && c < m.Pes()
    ensures r < m.Pes()
  {
    if picks == [] then c else (Last(picks).pe + 1) % m.Pes()
  }

  /** SIMPLE with queueing: each pick takes the first PE after the previous pick's that supports the task. */
  predicate TurnChoices(m: Machine, c: nat, picks: seq<Pick>)
    requires m.OnPes(picks) && c < m.Pes()
    decreases |picks|
  {
    picks == [] ||
    (TurnChoices(m, c, Front(picks))
     && FirstSupporting(m, Cursor(m, c, Front(picks)), Last(picks).task, Last(picks).pe))
  }

  lemma TurnNext(m: Machine, c: nat, picks: seq<Pick>, p: Pick)
    requires m.OnPes(picks) && c < m.Pes() && TurnChoices(m, c, picks) && p.pe < m.Pes()
    requires FirstSupporting(m, Cursor(m, c, picks), p.task, p.pe)
    ensures m.OnPes(picks + [p]) && TurnChoices(m, c, picks + [p]) && Cursor(m, c, picks + [p]) == (p.pe + 1) % m.Pes()
  {
    OneMore(picks, p);
  }

  lemma CheapestNext(m: Machine, picks: seq<Pick>, p: Pick)
    requires m.OnPes(picks) && m.CheapestChoices(picks) && p.pe < m.Pes() && m.CheapestChoice(p)
    ensures m.OnPes(picks + [p]) && m.CheapestChoices(picks + [p])
  {
  }

  /** Mean cost over the supported resource types among the first n, as HEFT_RT ranks tasks. */
  function CostSum(cost: (nat, nat) -> nat, t: Task, n: nat): nat {
    if n == 0 then 0 else CostSum(cost, t, n - 1) + if n - 1 in t.supported then cost(t.api, n - 1) else 0
  }

  function SupportedCount(t: Task, n: nat): nat {
    if n == 0 then 0 else SupportedCount(t, n - 1) + if n - 1 in t.supported then 1 else 0
  }

  const RESOURCE_TYPES: nat := 5

  function Rank(cost: (nat, nat) -> nat, t: Task): nat {
    var n := SupportedCount(t, RESOURCE_TYPES);
    if n == 0 then 0 else CostSum(cost, t, RESOURCE_TYPES) / n
  }

  ghost predicate RankedDown(cost: (nat, nat) -> nat, s: seq<Task>) {
    forall i, j :: 0 <= i <= j < |s| ==> Rank(cost, s[i]) >= Rank(cost, s[j])
  }

  method Insert(cost: (nat, nat) -> nat, s: seq<Task>, t: Task) returns (r: seq<Task>)
    requires RankedDown(cost, s)
    ensures multiset(r) == multiset(s) + multiset{t} && RankedDown(cost, r)
  {
    var j := 0;
    while j < |s| && Rank(cost, s[j]) >= Rank(cost, t)
      invariant 0 <= j <= |s|
      invariant forall k :: 0 <= k < j ==> Rank(cost, s[k]) >= Rank(cost, t)
    {
      j := j + 1;
    }
    assert s == s[..j] + s[j..];
    r := s[..j] + [t] + s[j..];
    InsertRanked(cost, s[..j], s[j..], t);
  }

  lemma InsertRanked(cost: (nat, nat) -> nat, a: seq<Task>, b: seq<Task>, t: Task)
    requires RankedDown(cost, a + b)
    requires forall k :: 0 <= k < |a| ==> Rank(cost, a[k]) >= Rank(cost, t)
    requires b != [] ==> Rank(cost, t) >= Rank(cost, b[0])
    ensures RankedDown(cost, a + [t] + b)
  {
    forall i, j | 0 <= i <= j < |a + [t] + b|
      ensures Rank(cost, (a + [t] + b)[i]) >= Rank(cost, (a + [t] + b)[j])
    {
      var i', j' := if i <= |a| then i else i - 1, if j <= |a| then j else j - 1;
      RankPair(cost, a, b, t, i, j, i', j');
    }
  }

  lemma RankPair(cost: (nat, nat) -> nat, a: seq<Task>, b: seq<Task>, t: Task, i: nat, j: nat, i': nat, j': nat)
    requires RankedDown(cost, a + b) && i <= j < |a| + 1 + |b|
    requires forall k :: 0 <= k < |a| ==> Rank(cost, a[k]) >= Rank(cost, t)
    requires b != [] ==> Rank(cost, t) >= Rank(cost, b[0])
    requires i' == (if i <= |a| then i else i - 1) && j' == if j <= |a| then j else j - 1
    ensures Rank(cost, (a + [t] + b)[i]) >= Rank(cost, (a + [t] + b)[j])
  {
    if i != |a| && j != |a| {
      assert (a + [t] + b)[i] == (a + b)[i'];
      assert (a + [t] + b)[j] == (a + b)[j'];
    } else if i == |a| < j {
      assert (a + b)[|a|] == b[0];
      assert (a + [t] + b)[j] == (a + b)[j'];
    }
  }

  /** std::sort by descending rank. Its contract is all a caller may use: ties come in any order. */
  method SortByRank(cost: (nat, nat) -> nat, s: seq<Task>) returns (r: seq<Task>)
    ensures multiset(r) == multiset(s) && RankedDown(cost, r)
  {
    r := [];
    for i := 0 to |s|
      invariant multiset(r) == multiset(s[..i]) && RankedDown(cost, r)
    {
      assert s[..i + 1] == s[..i] + [s[i]];
      r := Insert(cost, r, s[i]);
    }
    assert s[..|s|] == s;
  }
}
