/** The scheduling policies of the API runtime: rounds that edit the ready queue in place, push to
    the PEs' todo deques and keep each PE's estimated availability. */
module ApiScheduler {
  import opened ApiMachine
  import opened Basics
  import opened Bits

  /** A scheduler's queues and clock position when a round starts. */
  datatype Start = Start(ready: seq<Task>, todo: seq<seq<Task>>, avail: seq<int>, ticks: nat)

  class Scheduler {
    const machine: Machine
    const queueing: bool
    const clock: nat -> int
    var ready: seq<Task>
    var todo: seq<seq<Task>>
    var avail: seq<int>
    var busy: seq<bool>          // resource_state != 0, or a completed task not yet drained
    var free: int
    var ticks: nat               // clock readings so far
    var simpleCursor: nat
    var metCursor: nat

    ghost predicate Valid()
      reads this`todo, this`avail, this`busy, this`simpleCursor, this`metCursor
    {
      && |todo| == |avail| == |busy| == machine.Pes() > 0
      && simpleCursor < machine.Pes() && metCursor < machine.Pes()
    }

    ghost function Now(): Start
      reads this`ready, this`todo, this`avail, this`ticks
    {
      Start(ready, todo, avail, ticks)
    }

    ghost predicate Fits(s: Start) {
      |s.todo| == |s.avail| == machine.Pes()
    }

    /** What a round has done since the start: everything that left the ready queue was appended to
        the todo deque of a PE that supports it, and each PE's availability moved on, at times read
        from the clock. */
    ghost predicate Moved(s: Start, picks: seq<Pick>)
      requires Fits(s)
      reads this`ready, this`todo, this`avail, this`busy, this`ticks
    {
      && machine.Did(s.ready, s.todo, s.avail, ready, todo, avail, picks)
      && (queueing || AtMostOne(busy, s.todo, todo))
      && ticks >= s.ticks && Stamped(s.ticks, picks)
    }

    /** Moved as the loops carry it. */
    ghost predicate InRound(s: Start, picks: seq<Pick>)
      requires Fits(s)
      reads this`ready, this`todo, this`avail, this`busy, this`ticks
    {
      machine.OnPes(picks) && forall k: nat :: Inspect(k) ==> Moved(s, picks)
    }

    lemma RoundStarts(s: Start)
      requires Valid() && s == Now()
      ensures Fits(s) && InRound(s, []) && Walk(machine, queueing, s.ready, 0, ready, 0, [])
    {
      DidNothing(machine, queueing, ready, todo, avail);
    }

    lemma RoundMeans(s: Start, picks: seq<Pick>)
      requires Fits(s) && InRound(s, picks)
      ensures Moved(s, picks)
    {
      assert Inspect(0);
    }

    /** What a policy's next choice needs to know of the round so far. */
    lemma RoundState(s: Start, picks: seq<Pick>)
      requires Fits(s) && InRound(s, picks)
      ensures avail == machine.AfterAll(s.avail, picks) && (picks == [] ==> todo == s.todo && avail == s.avail)
      ensures multiset(ready) == multiset(s.ready) - Tasks(picks)
    {
      assert Inspect(0);
    }

    /** at is one of the clock readings from number first on. */
    ghost predicate ReadSince(first: nat, at: int)
    {
      exists k: nat :: first <= k && clock(k) == at
    }

    ghost predicate Stamped(first: nat, picks: seq<Pick>) {
      forall i :: 0 <= i < |picks| ==> ReadSince(first, picks[i].at)
    }

    lemma StampedNext(first: nat, picks: seq<Pick>, p: Pick, tick: nat)
      requires Stamped(first, picks) && first <= tick && p.at == clock(tick)
      ensures Stamped(first, picks + [p])
    {
      assert ReadSince(first, p.at);
    }

    method ReadClock() returns (now: int)
      modifies this`ticks
      ensures now == clock(old(ticks)) && ticks == old(ticks) + 1
    {
      now := clock(ticks);
      ticks := ticks + 1;
    }

    /** With the given todo deques pe takes the task: it supports it and, without queueing, is idle. */
    predicate Open(queues: seq<seq<Task>>, task: Task, pe: nat)
      requires pe < machine.Pes() == |queues| == |busy|
      reads this`busy
    {
      machine.Supports(task, pe) && (queueing || (!busy[pe] && queues[pe] == []))
    }

    predicate Assignable(task: Task, pe: nat)
      requires pe < machine.Pes() == |todo| == |busy|
      reads this`todo, this`busy
    {
      Open(todo, task, pe)
    }

    // ---- when a round places something ----

    /** pe is where the policy would try to place task first of all. */
    ghost predicate Wants(s: Start, now: int, task: Task, pe: nat)
      requires Fits(s) && pe < machine.Pes()
    {
      match machine.policy
      case Simple => true
      case Random => true
      case Met => machine.MetType(task, machine.types[pe])
      case HeftRt => machine.EarliestBottom(s.avail, now, task, pe)
      case Eft => machine.EarliestTop(s.avail, now, task, pe)
      case Etf => exists i: nat :: machine.FirstMinimum(s.avail, now, s.ready, i, pe) && s.ready[i] == task
    }

    ghost predicate Willing(s: Start, now: int, task: Task)
      requires Fits(s) && |busy| == machine.Pes()
      reads this`busy
    {
      exists pe: nat :: pe < machine.Pes() && Wants(s, now, task, pe) && Open(s.todo, task, pe)
    }

    ghost predicate NoneWilling(s: Start, now: int, n: nat)
      requires Fits(s) && |busy| == machine.Pes() && n <= |s.ready|
      reads this`busy
    {
      forall k: nat :: k < n ==> !Willing(s, now, s.ready[k])
    }

    ghost predicate SomeWilling(s: Start, now: int)
      requires Fits(s) && |busy| == machine.Pes()
      reads this`busy
    {
      exists k: nat :: k < |s.ready| && Willing(s, now, s.ready[k])
    }

    lemma OneWilling(s: Start, now: int, i: nat)
      requires Fits(s) && |busy| == machine.Pes() && i < |s.ready| && NoneWilling(s, now, i)
      ensures !Willing(s, now, s.ready[i]) ==> NoneWilling(s, now, i + 1)
    {
    }

    /** The first pick of a round was made in the state it started from. */
    lemma FirstWasWilling(s: Start, now: int, picks: seq<Pick>)
      requires Fits(s) && Valid() && Moved(s, picks) && picks != [] && picks[0].pe < machine.Pes()
      requires Wants(s, now, picks[0].task, picks[0].pe)
      ensures SomeWilling(s, now)
    {
      var p := picks[0];
      FirstPlaced(machine, s.ready, s.todo, s.avail, ready, todo, avail, picks, busy);
      var k: nat :| k < |s.ready| && s.ready[k] == p.task;
      assert Open(s.todo, p.task, p.pe);
      assert Willing(s, now, s.ready[k]);
    }

    lemma EarliestWasWilling(s: Start, now: int, picks: seq<Pick>)
      requires Fits(s) && Valid() && Moved(s, picks) && picks != []
      requires machine.policy == Eft || machine.policy == HeftRt
      requires machine.EarliestChoices(s.avail, now, picks)
      ensures SomeWilling(s, now)
    {
      FirstChoice(machine, s.avail, now, picks);
      FirstWasWilling(s, now, picks);
    }

    /** A policy that has only one PE in mind places the task if that PE takes it. */
    lemma OnlyChoice(s: Start, now: int, task: Task, pe: nat)
      requires Fits(s) && |busy| == machine.Pes() && pe < machine.Pes()
      requires machine.RunnableTask(task) ==>
        || (machine.policy == Eft && machine.EarliestTop(s.avail, now, task, pe))
        || (machine.policy == HeftRt && machine.EarliestBottom(s.avail, now, task, pe))
      requires machine.policy == Eft || machine.policy == HeftRt
      ensures Willing(s, now, task) <==> Open(s.todo, task, pe)
    {
      if Willing(s, now, task) {
        var k: nat :| k < machine.Pes() && Wants(s, now, task, k) && Open(s.todo, task, k);
        assert machine.RunnableTask(task);
        assert k == pe;
      }
      if Open(s.todo, task, pe) {
        assert machine.RunnableTask(task);
        assert Wants(s, now, task, pe);
      }
    }

    /** attemptToAssignTaskToPE. */
    method AttemptToAssign(task: Task, pe: nat) returns (ok: bool)
      requires Valid() && pe < machine.Pes()
      modifies this`todo, this`avail, this`ticks
      ensures Valid() && ok == old(Assignable(task, pe)) && ticks >= old(ticks)
      ensures !ok ==> todo == old(todo) && avail == old(avail) && ticks == old(ticks)
      ensures ok ==> todo == old(todo)[pe := old(todo)[pe] + [task]]
      ensures ok ==> avail == machine.After(old(avail), Pick(task, pe, clock(old(ticks))))
    {
      if !machine.Supports(task, pe) {
        return false;
      }
      if !queueing {
        if busy[pe] || |todo[pe]| > 0 {
          return false;
        }
      }
      if machine.Timed() {
        var now := ReadClock();
        var exec := machine.Cost(task, pe);
        avail := avail[pe := if now >= avail[pe] then now + exec else avail[pe] + exec];
      }
      todo := todo[pe := todo[pe] + [task]];
      return true;
    }

    /** Assign the task at position i to pe and, on success, erase it from the ready queue. before
        holds the round's assignments so far, picks those with this one. */
    method Place(i: nat, pe: nat, ghost start: Start, ghost before: seq<Pick>)
      returns (ok: bool, ghost picks: seq<Pick>)
      requires Valid() && i < |ready| && pe < machine.Pes() && Fits(start)
      requires Moved(start, before)
      modifies this`ready, this`todo, this`avail, this`ticks
      ensures Valid() && Moved(start, picks) && ok == old(Assignable(ready[i], pe))
      ensures ticks >= old(ticks)
      ensures ok ==> picks == before + [Pick(old(ready)[i], pe, clock(old(ticks)))] && ready == Without(old(ready), i)
      ensures ok ==> todo == old(todo)[pe := old(todo)[pe] + [old(ready)[i]]]
      ensures !ok ==> picks == before && ready == old(ready) && todo == old(todo)
      ensures !ok ==> avail == old(avail) && ticks == old(ticks)
    {
      var task := ready[i];
      ghost var p := Pick(task, pe, clock(ticks));
      ok := AttemptToAssign(task, pe);
      picks := before;
      if ok {
        DidNext(machine, start.ready, start.todo, start.avail, ready, old(todo), old(avail), i, before, p);
        if !queueing {
          AtMostOneNext(busy, start.todo, old(todo), pe, task);
        }
        StampedNext(start.ticks, before, p, old(ticks));
        ready := Without(ready, i);
        picks := before + [p];
      }
    }

    method PlaceInRound(i: nat, pe: nat, ghost start: Start, ghost before: seq<Pick>)
      returns (ok: bool, ghost picks: seq<Pick>)
      requires Valid() && i < |ready| && pe < machine.Pes() && Fits(start) && InRound(start, before)
      modifies this`ready, this`todo, this`avail, this`ticks
      ensures Valid() && InRound(start, picks) && ok == old(Assignable(ready[i], pe)) && ticks >= old(ticks)
      ensures ok ==> picks == before + [Pick(old(ready)[i], pe, clock(old(ticks)))] && ready == Without(old(ready), i)
      ensures ok ==> todo == old(todo)[pe := old(todo)[pe] + [old(ready)[i]]]
      ensures !ok ==> picks == before && ready == old(ready) && todo == old(todo) && avail == old(avail)
      ensures !ok ==> ticks == old(ticks)
    {
      RoundMeans(start, before);
      ok, picks := Place(i, pe, start, before);
    }

    /** Place as a step of a walk along the queue; d counts the tasks visited. */
    method Visit(i: nat, pe: nat, ghost d: nat, ghost start: Start, ghost before: seq<Pick>)
      returns (ok: bool, ghost picks: seq<Pick>)
      requires Valid() && i < |ready| && pe < machine.Pes() && Fits(start)
      requires InRound(start, before) && Walk(machine, queueing, start.ready, d, ready, i, before)
      requires machine.RunnableTask(ready[i]) ==> machine.Supports(ready[i], pe)
      modifies this`ready, this`todo, this`avail, this`ticks
      ensures Valid() && InRound(start, picks) && ok == old(Assignable(ready[i], pe))
      ensures ticks >= old(ticks)
      ensures ok ==> picks == before + [Pick(old(ready)[i], pe, clock(old(ticks)))] && |ready| == old(|ready|) - 1
      ensures !ok ==> picks == before && ready == old(ready) && todo == old(todo) && avail == old(avail)
      ensures Walk(machine, queueing, start.ready, d + 1, ready, if ok then i else i + 1, picks)
    {
      ghost var queue, p := ready, Pick(ready[i], pe, clock(ticks));
      ok, picks := PlaceInRound(i, pe, start, before);
      if ok {
        WalkPlaced(machine, queueing, start.ready, d, queue, i, before, p);
      } else {
        WalkSkipped(machine, queueing, start.ready, d, queue, i, before);
      }
    }

    /** Without queueing a placement uses up one free PE; none says that was the last. */
    method TakeFree() returns (none: bool)
      modifies this`free
      ensures free == (if queueing then old(free) else old(free) - 1) && none == (!queueing && free == 0)
    {
      if !queueing {
        free := free - 1;
      }
      return !queueing && free == 0;
    }

    // ---- EFT ----

    /** The PE that would finish task first; of equals the one with the highest index. With no PE
        that supports it the choice of the previous task stands. */
    method FindEarliestFromTop(task: Task, now: int, stale: nat) returns (pe: nat)
      requires Valid() && stale < machine.Pes()
      ensures pe < machine.Pes()
      ensures machine.RunnableTask(task) ==> machine.EarliestTop(avail, now, task, pe)
      ensures !machine.RunnableTask(task) ==> pe == stale
    {
      pe := stale;
      var found, earliest := false, 0;
      for i := machine.Pes() downto 0
        invariant pe < machine.Pes()
        invariant found ==> i <= pe && machine.Supports(task, pe) && earliest == machine.Finish(avail, now, task, pe)
        invariant found ==> forall k: nat :: i <= k < machine.Pes() && machine.Supports(task, k) ==>
                              earliest <= machine.Finish(avail, now, task, k)
        invariant found ==> forall k: nat :: pe < k < machine.Pes() && machine.Supports(task, k) ==>
                              earliest < machine.Finish(avail, now, task, k)
        invariant !found ==> pe == stale && forall k: nat :: i <= k < machine.Pes() ==> !machine.Supports(task, k)
      {
        var finish := if now >= avail[i] then now + machine.Cost(task, i) else avail[i] + machine.Cost(task, i);
        if machine.Supports(task, i) && (!found || finish < earliest) {
          found, earliest, pe := true, finish, i;
        }
      }
    }

    /** Assign the task at position i to its earliest PE, if that PE takes it. */
    method VisitEft(i: nat, now: int, stale: nat, ghost d: nat, ghost start: Start, ghost before: seq<Pick>)
      returns (ok: bool, none: bool, pe: nat, ghost picks: seq<Pick>)
      requires Valid() && machine.policy == Eft && i < |ready| && stale < machine.Pes() && Fits(start)
      requires InRound(start, before) && Walk(machine, queueing, start.ready, d, ready, i, before)
      requires machine.EarliestChoices(start.avail, now, before)
      requires before == [] ==> ready == start.ready && NoneWilling(start, now, i)
      modifies this`ready, this`todo, this`avail, this`ticks, this`free
      ensures Valid() && InRound(start, picks) && pe < machine.Pes()
      ensures free == old(free) - (if ok && !queueing then 1 else 0) && none == (ok && !queueing && free == 0)
      ensures if ok then |picks| == |before| + 1 && |ready| == old(|ready|) - 1
              else picks == before && |ready| == old(|ready|)
      ensures Walk(machine, queueing, start.ready, d + 1, ready, if ok then i else i + 1, picks)
      ensures machine.EarliestChoices(start.avail, now, picks)
      ensures picks == [] ==> ready == start.ready && NoneWilling(start, now, i + 1)
    {
      pe := FindEarliestFromTop(ready[i], now, stale);
      ghost var p := Pick(ready[i], pe, clock(ticks));
      RoundState(start, before);
      if before == [] {
        OnlyChoice(start, now, ready[i], pe);
        OneWilling(start, now, i);
      }
      ok, picks := Visit(i, pe, d, start, before);
      none := false;
      if ok {
        none := TakeFree();
        EarliestNext(machine, start.avail, now, before, p);
      }
    }

    /** The loop over the queue; without queueing it ends early when no PE is left. */
    method VisitAllEft(now: int, ghost start: Start)
      returns (count: nat, ghost picks: seq<Pick>, ghost d: nat, ghost i: nat)
      requires Valid() && machine.policy == Eft && Fits(start) && ready == start.ready
      requires InRound(start, []) && Walk(machine, queueing, start.ready, 0, ready, 0, [])
      modifies this`ready, this`todo, this`avail, this`ticks, this`free
      ensures Valid() && InRound(start, picks) && count == |picks|
      ensures machine.EarliestChoices(start.avail, now, picks)
      ensures i <= |ready| && (queueing ==> i == |ready|) && Walk(machine, queueing, start.ready, d, ready, i, picks)
      ensures free == old(free) - (if queueing then 0 else count)
      ensures picks == [] ==> NoneWilling(start, now, |start.ready|)
    {
      count, picks, d := 0, [], 0;
      var chosen: nat := 0;
      var k := 0;
      var none := false;
      while k < |ready| && !none
        invariant k <= |ready| && Valid() && chosen < machine.Pes() && count == |picks| && InRound(start, picks)
        invariant Walk(machine, queueing, start.ready, d, ready, k, picks)
        invariant machine.EarliestChoices(start.avail, now, picks) && (none ==> !queueing && picks != [])
        invariant free == old(free) - (if queueing then 0 else count)
        invariant picks == [] ==> ready == start.ready && NoneWilling(start, now, k)
        decreases |ready| - k
      {
        var ok;
        ok, none, chosen, picks := VisitEft(k, now, chosen, d, start, picks);
        d := d + 1;
        if ok {
          count := count + 1;
        } else {
          k := k + 1;
        }
      }
      i := k;
    }

    method ScheduleEft() returns (count: nat, ghost picks: seq<Pick>)
      requires Valid() && machine.policy == Eft
      modifies this`ready, this`todo, this`avail, this`ticks, this`free
      ensures Valid() && Moved(old(Now()), picks) && count == |picks|
      ensures machine.EarliestChoices(old(avail), clock(old(ticks)), picks)
      ensures queueing ==> Drained(machine, old(ready), ready, picks)
      ensures free == old(free) - (if queueing then 0 else count)
      ensures picks != [] <==> SomeWilling(old(Now()), clock(old(ticks)))
    {
      ghost var start, d, i := Now(), 0, 0;
      RoundStarts(start);
      var now := ReadClock();
      count, picks, d, i := VisitAllEft(now, start);
      if queueing {
        WalkEnds(machine, queueing, start.ready, d, ready, i, picks);
      }
      RoundMeans(start, picks);
      if picks != [] {
        EarliestWasWilling(start, now, picks);
      }
    }

    // ---- HEFT_RT ----

    /** The PE that would finish task first; of equals the one with the lowest index. */
    method FindEarliest(task: Task, now: int) returns (pe: nat)
      requires Valid() && machine.RunnableTask(task)
      ensures machine.EarliestBottom(avail, now, task, pe)
    {
      pe := 0;
      var found, earliest := false, 0;
      for i := 0 to machine.Pes()
        invariant found ==> pe < i && machine.Supports(task, pe) && earliest == machine.Finish(avail, now, task, pe)
        invariant found ==> forall k: nat :: k < i && machine.Supports(task, k) ==>
                              earliest <= machine.Finish(avail, now, task, k)
        invariant found ==> forall k: nat :: k < pe && machine.Supports(task, k) ==>
                              earliest < machine.Finish(avail, now, task, k)
        invariant !found ==> forall k: nat :: k < i ==> !machine.Supports(task, k)
      {
        if machine.Supports(task, i) {
          var finish := if now >= avail[i] then now + machine.Cost(task, i) else avail[i] + machine.Cost(task, i);
          if !found || finish < earliest {
            found, earliest, pe := true, finish, i;
          }
        }
      }
    }

    method VisitHeftRt(i: nat, now: int, ghost d: nat, ghost start: Start, ghost before: seq<Pick>)
      returns (ok: bool, ghost picks: seq<Pick>)
      requires Valid() && machine.policy == HeftRt && i < |ready| && Fits(start) && machine.Runnable(start.ready)
      requires InRound(start, before) && Walk(machine, queueing, start.ready, d, ready, i, before)
      requires machine.EarliestChoices(start.avail, now, before)
      requires before == [] ==> ready == start.ready && NoneWilling(start, now, i)
      modifies this`ready, this`todo, this`avail, this`ticks
      ensures Valid() && InRound(start, picks)
      ensures if ok then |picks| == |before| + 1 && |ready| == old(|ready|) - 1
              else picks == before && |ready| == old(|ready|)
      ensures Walk(machine, queueing, start.ready, d + 1, ready, if ok then i else i + 1, picks)
      ensures machine.EarliestChoices(start.avail, now, picks)
      ensures picks == [] ==> ready == start.ready && NoneWilling(start, now, i + 1)
    {
      var pe := FindEarliest(ready[i], now);
      ghost var p := Pick(ready[i], pe, clock(ticks));
      RoundState(start, before);
      if before == [] {
        OnlyChoice(start, now, ready[i], pe);
        OneWilling(start, now, i);
      }
      ok, picks := Visit(i, pe, d, start, before);
      if ok {
        EarliestNext(machine, start.avail, now, before, p);
      }
    }

    /** The loop over the sorted queue. */
    method VisitAllHeftRt(now: int, ghost start: Start) returns (count: nat, ghost picks: seq<Pick>, ghost d: nat)
      requires Valid() && machine.policy == HeftRt && Fits(start) && ready == start.ready && machine.Runnable(ready)
      requires InRound(start, []) && Walk(machine, queueing, start.ready, 0, ready, 0, [])
      modifies this`ready, this`todo, this`avail, this`ticks
      ensures Valid() && InRound(start, picks) && count == |picks|
      ensures machine.EarliestChoices(start.avail, now, picks)
      ensures Walk(machine, queueing, start.ready, d, ready, |ready|, picks)
      ensures picks == [] ==> NoneWilling(start, now, |start.ready|)
    {
      count, picks, d := 0, [], 0;
      var i := 0;
      while i < |ready|
        invariant i <= |ready| && Valid() && count == |picks| && InRound(start, picks)
        invariant Walk(machine, queueing, start.ready, d, ready, i, picks)
        invariant machine.EarliestChoices(start.avail, now, picks)
        invariant picks == [] ==> ready == start.ready && NoneWilling(start, now, i)
        decreases |ready| - i
      {
        var ok;
        ok, picks := VisitHeftRt(i, now, d, start, picks);
        d := d + 1;
        if ok {
          count := count + 1;
        } else {
          i := i + 1;
        }
      }
    }

    method PlaceInOrder() returns (count: nat, ghost picks: seq<Pick>)
      requires Valid() && machine.policy == HeftRt && machine.Runnable(ready)
      modifies this`ready, this`todo, this`avail, this`ticks
      ensures Valid() && Moved(old(Now()), picks) && count == |picks|
      ensures machine.EarliestChoices(old(avail), clock(old(ticks)), picks)
      ensures queueing ==> ready == [] && Order(picks) == old(ready)
      ensures picks != [] <==> SomeWilling(old(Now()), clock(old(ticks)))
    {
      ghost var start, d := Now(), 0;
      RoundStarts(start);
      var now := ReadClock();
      count, picks, d := VisitAllHeftRt(now, start);
      WalkEndsRunnable(machine, queueing, start.ready, d, ready, |ready|, picks);
      RoundMeans(start, picks);
      if picks != [] {
        EarliestWasWilling(start, now, picks);
      }
    }

    /** sorted is the batch in the order the policy visits it. */
    method ScheduleHeftRt() returns (count: nat, ghost picks: seq<Pick>, ghost sorted: seq<Task>)
      requires Valid() && machine.policy == HeftRt && machine.Runnable(ready)
      modifies this`ready, this`todo, this`avail, this`ticks
      ensures Valid() && Moved(old(Now()), picks) && count == |picks|
      ensures machine.EarliestChoices(old(avail), clock(old(ticks)), picks)
      ensures multiset(sorted) == multiset(old(ready)) && RankedDown(machine.cost, sorted)
      ensures queueing ==> ready == [] && Order(picks) == sorted
      ensures picks != [] <==> SomeWilling(old(Now()), clock(old(ticks)))
    {
      ghost var start := Now();
      ready := SortByRank(machine.cost, ready);
      sorted := ready;
      SameTasks(machine, old(ready), sorted);
      SameWilling(start, Now(), clock(ticks));
      count, picks := PlaceInOrder();
    }

    /** Whether a task could be placed does not depend on the order of the queue. */
    lemma SameWilling(s: Start, t: Start, now: int)
      requires Fits(s) && Fits(t) && |busy| == machine.Pes() && machine.policy != Etf
      requires multiset(s.ready) == multiset(t.ready) && s.todo == t.todo && s.avail == t.avail
      ensures SomeWilling(s, now) <==> SomeWilling(t, now)
    {
      if SomeWilling(s, now) {
        WillingElsewhere(s, t, now);
      }
      if SomeWilling(t, now) {
        WillingElsewhere(t, s, now);
      }
    }

    lemma WillingElsewhere(s: Start, t: Start, now: int)
      requires Fits(s) && Fits(t) && |busy| == machine.Pes() && machine.policy != Etf && SomeWilling(s, now)
      requires multiset(s.ready) == multiset(t.ready) && s.todo == t.todo && s.avail == t.avail
      ensures SomeWilling(t, now)
    {
      var k: nat :| k < |s.ready| && Willing(s, now, s.ready[k]);
      var pe: nat :| pe < machine.Pes() && Wants(s, now, s.ready[k], pe) && Open(s.todo, s.ready[k], pe);
      assert s.ready[k] in multiset(t.ready);
      var j: nat :| j < |t.ready| && t.ready[j] == s.ready[k];
      assert Wants(t, now, t.ready[j], pe) && Open(t.todo, t.ready[j], pe);
      assert Willing(t, now, t.ready[j]);
    }

    // ---- ETF ----

    /** The task and PE that would finish first over the whole queue. */
    method FindEarliestTask(now: int) returns (i: nat, pe: nat)
      requires Valid() && machine.Runnable(ready) && ready != []
      ensures machine.FirstMinimum(avail, now, ready, i, pe)
    {
      i, pe := 0, 0;
      var found := false;
      for t := 0 to |ready|
        invariant found == (t > 0)
        invariant found ==> i < t && pe < machine.Pes() && machine.Supports(ready[i], pe)
        invariant found ==> forall u: nat, k: nat :: u < t && k < machine.Pes() && machine.Supports(ready[u], k) ==>
                              machine.NotBefore(avail, now, ready, i, pe, u, k)
      {
        found, i, pe := ScanPes(now, t, found, i, pe);
        assert machine.RunnableTask(ready[t]);
      }
    }

    /** The inner loop: the PEs for the task at t, given the best pair among the tasks before it. */
    method ScanPes(now: int, t: nat, found0: bool, i0: nat, pe0: nat) returns (found: bool, i: nat, pe: nat)
      requires Valid() && t < |ready|
      requires found0 ==> i0 < t && pe0 < machine.Pes() && machine.Supports(ready[i0], pe0)
      requires found0 ==> forall u: nat, k: nat :: u < t && k < machine.Pes() && machine.Supports(ready[u], k) ==>
                            machine.NotBefore(avail, now, ready, i0, pe0, u, k)
      requires !found0 ==> t == 0
      ensures found == (found0 || exists k: nat :: k < machine.Pes() && machine.Supports(ready[t], k))
      ensures found ==> i <= t && pe < machine.Pes() && machine.Supports(ready[i], pe)
      ensures found ==> forall u: nat, k: nat :: u <= t && k < machine.Pes() && machine.Supports(ready[u], k) ==>
                          machine.NotBefore(avail, now, ready, i, pe, u, k)
    {
      found, i, pe := found0, i0, pe0;
      for j := 0 to machine.Pes()
        invariant found ==> (i < t || (i == t && pe < j)) && pe < machine.Pes() && machine.Supports(ready[i], pe)
        invariant found ==> forall u: nat, k: nat :: u < t && k < machine.Pes() && machine.Supports(ready[u], k) ==>
                              machine.NotBefore(avail, now, ready, i, pe, u, k)
        invariant found ==> forall k: nat :: k < j && machine.Supports(ready[t], k) ==>
                              machine.NotBefore(avail, now, ready, i, pe, t, k)
        invariant found0 ==> found
        invariant found == (found0 || exists k: nat :: k < j && machine.Supports(ready[t], k))
      {
        var finish := machine.Finish(avail, now, ready[t], j);
        if machine.Supports(ready[t], j) && (!found || finish < machine.Finish(avail, now, ready[i], pe)) {
          found, i, pe := true, t, j;
        }
      }
    }

    /** The next pair, in terms of the round's start. */
    method ChooseEtf(now: int, ghost start: Start, ghost before: seq<Pick>) returns (i: nat, pe: nat)
      requires Valid() && machine.policy == Etf && ready != [] && Fits(start) && machine.Runnable(ready)
      requires InRound(start, before) && (before == [] ==> ready == start.ready)
      ensures i < |ready| && pe < machine.Pes() && machine.Supports(ready[i], pe)
      ensures machine.Runnable(Without(ready, i))
      ensures machine.GlobalMinimum(machine.AfterAll(start.avail, before), now, multiset(start.ready) - Tasks(before),
                                    ready[i], pe)
      ensures before == [] ==> (Assignable(ready[i], pe) <==> SomeWilling(start, now))
    {
      RoundState(start, before);
      i, pe := FindEarliestTask(now);
      FirstIsGlobal(machine, avail, now, ready, i, pe);
      WithoutRunnable(machine, ready, i);
      if before == [] {
        FirstMinimumWilling(start, now, i, pe);
      }
    }

    method PlaceChosen(now: int, ghost start: Start, ghost before: seq<Pick>) returns (ok: bool, ghost picks: seq<Pick>)
      requires Valid() && machine.policy == Etf && ready != [] && Fits(start) && machine.Runnable(ready)
      requires InRound(start, before) && machine.GlobalChoices(start.avail, now, multiset(start.ready), before)
      requires before == [] ==> ready == start.ready
      modifies this`ready, this`todo, this`avail, this`ticks
      ensures Valid() && InRound(start, picks) && machine.Runnable(ready) && (queueing ==> ok)
      ensures if ok then |picks| == |before| + 1 && |ready| == old(|ready|) - 1
              else picks == before && ready == old(ready)
      ensures machine.GlobalChoices(start.avail, now, multiset(start.ready), picks)
      ensures before == [] ==> (ok <==> SomeWilling(start, now))
    {
      var i, pe := ChooseEtf(now, start, before);
      GlobalNext(machine, start.avail, now, multiset(start.ready), before, Pick(ready[i], pe, clock(ticks)));
      ok, picks := PlaceInRound(i, pe, start, before);
    }

    method VisitEtf(now: int, ghost start: Start, ghost before: seq<Pick>)
      returns (ok: bool, none: bool, ghost picks: seq<Pick>)
      requires Valid() && machine.policy == Etf && ready != [] && Fits(start) && machine.Runnable(ready)
      requires InRound(start, before) && machine.GlobalChoices(start.avail, now, multiset(start.ready), before)
      requires before == [] ==> ready == start.ready
      modifies this`ready, this`todo, this`avail, this`ticks, this`free
      ensures Valid() && InRound(start, picks) && machine.Runnable(ready) && (queueing ==> ok)
      ensures if ok then |picks| == |before| + 1 && |ready| == old(|ready|) - 1
              else picks == before && ready == old(ready)
      ensures machine.GlobalChoices(start.avail, now, multiset(start.ready), picks)
      ensures free == old(free) - (if ok && !queueing then 1 else 0) && none == (ok && !queueing && free == 0)
      ensures before == [] ==> (ok <==> SomeWilling(start, now))
    {
      ok, picks := PlaceChosen(now, start, before);
      none := false;
      if ok {
        none := TakeFree();
      }
    }

    /** ETF starts by placing something if and only if the one pair it settles on can be used. */
    lemma FirstMinimumWilling(s: Start, now: int, i: nat, pe: nat)
      requires Fits(s) && |busy| == machine.Pes() && machine.policy == Etf
      requires machine.FirstMinimum(s.avail, now, s.ready, i, pe)
      ensures SomeWilling(s, now) <==> Open(s.todo, s.ready[i], pe)
    {
      if Open(s.todo, s.ready[i], pe) {
        assert Wants(s, now, s.ready[i], pe);
        assert Willing(s, now, s.ready[i]);
      }
      if SomeWilling(s, now) {
        var k: nat :| k < |s.ready| && Willing(s, now, s.ready[k]);
        var pe': nat :| pe' < machine.Pes() && Wants(s, now, s.ready[k], pe') && Open(s.todo, s.ready[k], pe');
        var i': nat :| machine.FirstMinimum(s.avail, now, s.ready, i', pe') && s.ready[i'] == s.ready[k];
        OneFirstMinimum(machine, s.avail, now, s.ready, i, pe, i', pe');
      }
    }

    /** As many attempts as there were tasks, or until no PE is left. */
    method VisitAllEtf(now: int, ghost start: Start) returns (count: nat, ghost picks: seq<Pick>)
      requires Valid() && machine.policy == Etf && Fits(start) && machine.Runnable(ready) && ready == start.ready
      requires InRound(start, [])
      modifies this`ready, this`todo, this`avail, this`ticks, this`free
      ensures Valid() && InRound(start, picks) && count == |picks|
      ensures machine.GlobalChoices(start.avail, now, multiset(start.ready), picks)
      ensures queueing ==> ready == []
      ensures free == old(free) - (if queueing then 0 else count)
      ensures picks != [] <==> SomeWilling(start, now)
    {
      count, picks := 0, [];
      var size := |ready|;
      for t := 0 to size
        invariant Valid() && count == |picks| && InRound(start, picks)
        invariant |ready| >= size - t && (queueing ==> |ready| == size - t) && machine.Runnable(ready)
        invariant machine.GlobalChoices(start.avail, now, multiset(start.ready), picks)
        invariant free == old(free) - (if queueing then 0 else count)
        invariant picks == [] ==> ready == start.ready
        invariant if t == 0 then picks == [] else picks != [] <==> SomeWilling(start, now)
      {
        var ok, none;
        ok, none, picks := VisitEtf(now, start, picks);
        if ok {
          count := count + 1;
          if none {
            break;
          }
        }
      }
    }

    method ScheduleEtf() returns (count: nat, ghost picks: seq<Pick>)
      requires Valid() && machine.policy == Etf && machine.Runnable(ready)
      modifies this`ready, this`todo, this`avail, this`ticks, this`free
      ensures Valid() && Moved(old(Now()), picks) && count == |picks|
      ensures machine.GlobalChoices(old(avail), clock(old(ticks)), multiset(old(ready)), picks)
      ensures queueing ==> ready == []
      ensures free == old(free) - (if queueing then 0 else count)
      ensures picks != [] <==> SomeWilling(old(Now()), clock(old(ticks)))
    {
      ghost var start := Now();
      RoundStarts(start);
      var now := ReadClock();
      count, picks := VisitAllEtf(now, start);
      RoundMeans(start, picks);
    }

    // ---- taking turns ----

    /** None of the t PEs from c on took the task at position i; only PEs of the given type, if any, were asked. */
    ghost predicate Refused(c: nat, t: nat, task: Task, resource: Option<nat>)
      requires Valid() && c < machine.Pes() && t <= machine.Pes()
      reads this`todo, this`avail, this`busy, this`simpleCursor, this`metCursor
    {
      forall u: nat :: u < t ==> RefusedBy(Around(c, u, machine.Pes()), task, resource)
    }

    ghost predicate RefusedBy(pe: nat, task: Task, resource: Option<nat>)
      requires Valid() && pe < machine.Pes()
      reads this`todo, this`avail, this`busy, this`simpleCursor, this`metCursor
    {
      (resource == None || resource == Some(machine.types[pe])) ==> !Assignable(task, pe)
    }

    /** pe is the first from c on to take the task. */
    ghost predicate FirstTaker(c: nat, pe: nat, task: Task, resource: Option<nat>)
      requires Valid() && c < machine.Pes() && pe < machine.Pes()
      reads this`todo, this`avail, this`busy, this`simpleCursor, this`metCursor
    {
      !RefusedBy(pe, task, resource)
      && exists t: nat :: t < machine.Pes() && Around(c, t, machine.Pes()) == pe && Refused(c, t, task, resource)
    }

    /** With queueing on, the first PE to take a task is the first that supports it. */
    lemma FirstTakersAreFirst(c: nat, task: Task)
      requires Valid() && c < machine.Pes()
      ensures queueing ==>
                forall pe: nat :: pe < machine.Pes() && FirstTaker(c, pe, task, None) ==>
                  FirstSupporting(machine, c, task, pe)
    {
      forall pe: nat | pe < machine.Pes() && queueing && FirstTaker(c, pe, task, None)
        ensures FirstSupporting(machine, c, task, pe)
      {
        var t: nat :| t < machine.Pes() && Around(c, t, machine.Pes()) == pe && Refused(c, t, task, None);
        FirstSupportsTask(c, pe, t, task);
      }
    }

    lemma FirstSupportsTask(c: nat, pe: nat, t: nat, task: Task)
      requires queueing && Valid() && c < machine.Pes() && t < machine.Pes() && pe == Around(c, t, machine.Pes())
      requires Refused(c, t, task, None) && Assignable(task, pe)
      ensures FirstSupporting(machine, c, task, pe)
    {
      forall u: nat | u < t ensures !machine.Supports(task, Around(c, u, machine.Pes())) {
        assert RefusedBy(Around(c, u, machine.Pes()), task, None);
      }
      assert NoneBefore(machine, c, task, t);
    }

    /** With queueing on, only a task that no PE supports is refused by all. */
    lemma RefusedIsUnsupported(task: Task)
      requires Valid()
      ensures queueing && NoneTakes(task, None) ==> !machine.RunnableTask(task)
    {
      if queueing && NoneTakes(task, None) {
        forall k: nat | k < machine.Pes() ensures !machine.Supports(task, k) {
          assert RefusedBy(k, task, None);
        }
      }
    }

    /** With queueing on, a task is not refused by all PEs of a type it supports. */
    lemma TypeTakes(task: Task, resource: nat)
      requires queueing && Valid() && machine.HasType(task, resource)
      ensures !NoneTakes(task, Some(resource))
    {
      var k: nat :| k < machine.Pes() && machine.types[k] == resource;
      assert Assignable(task, k) && !RefusedBy(k, task, Some(resource));
    }

    lemma RefusedNext(c: nat, t: nat, task: Task, resource: Option<nat>)
      requires Valid() && c < machine.Pes() && t < machine.Pes()
      requires Refused(c, t, task, resource) && RefusedBy(Around(c, t, machine.Pes()), task, resource)
      ensures Refused(c, t + 1, task, resource)
    {
    }

    lemma RefusedByAll(c: nat, task: Task, resource: Option<nat>)
      requires Valid() && c < machine.Pes() && Refused(c, machine.Pes(), task, resource)
      ensures NoneTakes(task, resource)
    {
      forall k: nat | k < machine.Pes() ensures RefusedBy(k, task, resource) {
        AroundAll(c, machine.Pes(), k);
      }
    }

    ghost predicate NoneTakes(task: Task, resource: Option<nat>)
      requires Valid()
      reads this`todo, this`avail, this`busy, this`simpleCursor, this`metCursor
    {
      forall k: nat :: k < machine.Pes() ==> RefusedBy(k, task, resource)
    }

    /** Attempt pe if it is of the wanted type. */
    method Offer(i: nat, pe: nat, resource: Option<nat>, ghost start: Start, ghost before: seq<Pick>)
      returns (ok: bool, ghost picks: seq<Pick>)
      requires Valid() && i < |ready| && pe < machine.Pes() && Fits(start) && InRound(start, before)
      modifies this`ready, this`todo, this`avail, this`ticks
      ensures Valid() && InRound(start, picks) && ok == !old(RefusedBy(pe, ready[i], resource))
      ensures ok ==> picks == before + [Pick(old(ready)[i], pe, clock(old(ticks)))] && ready == Without(old(ready), i)
      ensures ok ==> todo == old(todo)[pe := old(todo)[pe] + [old(ready)[i]]]
      ensures !ok ==> picks == before && ready == old(ready) && todo == old(todo)
      ensures !ok ==> avail == old(avail) && ticks == old(ticks)
    {
      ok, picks := false, before;
      if resource == None || resource == Some(machine.types[pe]) {
      ok, picks := PlaceInRound(i, pe, start, before);
      }
    }

    /** Offers the task at position i to each PE once, of one type or of any, going round from cursor. */
    method PlaceAround(i: nat, cursor: nat, resource: Option<nat>, ghost start: Start, ghost before: seq<Pick>)
      returns (ok: bool, next: nat, ghost pe: nat, ghost picks: seq<Pick>)
      requires Valid() && i < |ready| && cursor < machine.Pes() && Fits(start) && InRound(start, before)
      modifies this`ready, this`todo, this`avail, this`ticks
      ensures Valid() && InRound(start, picks) && pe < machine.Pes() && next < machine.Pes()
      ensures ok ==> picks == before + [Pick(old(ready)[i], pe, clock(old(ticks)))] && ready == Without(old(ready), i)
      ensures ok ==> old(FirstTaker(cursor, pe, ready[i], resource)) && next == (pe + 1) % machine.Pes()
      ensures ok ==> todo == old(todo)[pe := old(todo)[pe] + [old(ready)[i]]]
      ensures !ok ==> picks == before && ready == old(ready) && todo == old(todo) && next == cursor
      ensures ok <==> !old(NoneTakes(ready[i], resource))
    {
      picks, ok, pe, next := before, false, 0, cursor;
      var n := machine.Pes();
      for t := 0 to n
        invariant Valid() && InRound(start, before) && picks == before && next == Around(cursor, t, n)
        invariant ready == old(ready) && todo == old(todo) && avail == old(avail) && ticks == old(ticks)
        invariant Refused(cursor, t, ready[i], resource) && old(Refused(cursor, t, ready[i], resource))
      {
        AroundNext(cursor, t, n);
        pe := next;
        ok, picks := Offer(i, next, resource, start, before);
        next := (next + 1) % n;
        if ok {
          return;
        }
        RefusedNext(cursor, t, ready[i], resource);
      }
      pe := 0;
      RefusedByAll(cursor, ready[i], resource);
    }

    // ---- SIMPLE and RANDOM ----

    /** With the given todo deques no PE takes the task. */
    ghost predicate Closed(queues: seq<seq<Task>>, task: Task)
      requires |queues| == |busy| == machine.Pes()
      reads this`busy
    {
      forall k: nat :: k < machine.Pes() ==> !Open(queues, task, k)
    }

    ghost predicate AllClosed(tasks: seq<Task>, n: nat)
      requires |todo| == |busy| == machine.Pes() && n <= |tasks|
      reads this`todo, this`busy
    {
      forall k: nat :: k < n ==> Closed(todo, tasks[k])
    }

    lemma TakenOrClosed(task: Task)
      requires Valid()
      ensures NoneTakes(task, None) <==> Closed(todo, task)
    {
      if NoneTakes(task, None) {
        forall k: nat | k < machine.Pes() ensures !Open(todo, task, k) {
          assert RefusedBy(k, task, None);
        }
      }
    }

    /** A PE that is taken stays taken for the rest of the round. */
    lemma StaysClosed(queues: seq<seq<Task>>, tasks: seq<Task>, i: nat, pe: nat, t: Task)
      requires |queues| == |todo| == |busy| == machine.Pes() && pe < |queues| && i < |tasks|
      requires todo == queues[pe := queues[pe] + [t]]
      requires forall k: nat :: k < i ==> Closed(queues, tasks[k])
      ensures AllClosed(Without(tasks, i), i)
    {
      forall k: nat | k < i ensures Closed(todo, Without(tasks, i)[k]) {
        assert Closed(queues, tasks[k]);
        forall u: nat | u < machine.Pes() ensures !Open(todo, tasks[k], u) {
          assert !Open(queues, tasks[k], u);
        }
      }
    }

    /** One task of the walk, offered to each PE in turn. */
    method OfferInTurn(i: nat, ghost d: nat, ghost start: Start, ghost before: seq<Pick>)
      returns (ok: bool, ghost pe: nat, ghost at: int, ghost picks: seq<Pick>)
      requires Valid() && i < |ready| && Fits(start)
      requires InRound(start, before) && Walk(machine, queueing, start.ready, d, ready, i, before)
      modifies this`ready, this`todo, this`avail, this`ticks, this`simpleCursor
      ensures Valid() && InRound(start, picks) && pe < machine.Pes()
      ensures ok <==> !old(Closed(todo, ready[i]))
      ensures ok ==> picks == before + [Pick(old(ready)[i], pe, at)] && ready == Without(old(ready), i)
      ensures ok ==> simpleCursor == (pe + 1) % machine.Pes()
      ensures ok && queueing ==> FirstSupporting(machine, old(simpleCursor), old(ready)[i], pe)
      ensures ok ==> todo == old(todo)[pe := old(todo)[pe] + [old(ready)[i]]]
      ensures !ok ==> picks == before && ready == old(ready) && todo == old(todo) && simpleCursor == old(simpleCursor)
      ensures Walk(machine, queueing, start.ready, d + 1, ready, if ok then i else i + 1, picks)
    {
      ghost var queue := ready;
      at := clock(ticks);
      FirstTakersAreFirst(simpleCursor, ready[i]);
      TakenOrClosed(ready[i]);
      RefusedIsUnsupported(ready[i]);
      ok, simpleCursor, pe, picks := PlaceAround(i, simpleCursor, None, start, before);
      if ok {
        WalkPlaced(machine, queueing, start.ready, d, queue, i, before, Pick(queue[i], pe, at));
      } else {
        WalkSkipped(machine, queueing, start.ready, d, queue, i, before);
      }
    }

    /** OfferInTurn with what is left behind it: the first i tasks have no PE any more. */
    method OfferAndLeave(i: nat, ghost d: nat, ghost start: Start, ghost before: seq<Pick>)
      returns (ok: bool, ghost pe: nat, ghost at: int, ghost picks: seq<Pick>)
      requires Valid() && i < |ready| && Fits(start) && AllClosed(ready, i)
      requires InRound(start, before) && Walk(machine, queueing, start.ready, d, ready, i, before)
      requires before == [] ==> ready == start.ready
      modifies this`ready, this`todo, this`avail, this`ticks, this`simpleCursor
      ensures Valid() && InRound(start, picks) && pe < machine.Pes()
      ensures ok ==> picks == before + [Pick(old(ready)[i], pe, at)] && |ready| == old(|ready|) - 1
      ensures ok ==> simpleCursor == (pe + 1) % machine.Pes()
      ensures ok && queueing ==> FirstSupporting(machine, old(simpleCursor), old(ready)[i], pe)
      ensures !ok ==> picks == before && ready == old(ready) && simpleCursor == old(simpleCursor)
      ensures Walk(machine, queueing, start.ready, d + 1, ready, if ok then i else i + 1, picks)
      ensures AllClosed(ready, if ok then i else i + 1)
      ensures before == [] ==> (ok <==> !Closed(start.todo, start.ready[i]))
    {
      ghost var queue, queues := ready, todo;
      if before == [] {
        RoundState(start, before);
      }
      ok, pe, at, picks := OfferInTurn(i, d, start, before);
      if ok {
        StaysClosed(queues, queue, i, pe, queue[i]);
      }
    }

    method VisitSimple(i: nat, ghost d: nat, ghost c: nat, ghost start: Start, ghost before: seq<Pick>)
      returns (ok: bool, none: bool, ghost picks: seq<Pick>)
      requires Valid() && i < |ready| && Fits(start) && c < machine.Pes() && AllClosed(ready, i)
      requires InRound(start, before) && Walk(machine, queueing, start.ready, d, ready, i, before)
      requires queueing ==> TurnChoices(machine, c, before) && simpleCursor == Cursor(machine, c, before)
      requires before == [] ==> ready == start.ready
      modifies this`ready, this`todo, this`avail, this`ticks, this`simpleCursor, this`free
      ensures Valid() && InRound(start, picks) && none == (!queueing && free == 0)
      ensures free == old(free) - if ok && !queueing then 1 else 0
      ensures if ok then |picks| == |before| + 1 && |ready| == old(|ready|) - 1
              else picks == before && ready == old(ready)
      ensures Walk(machine, queueing, start.ready, d + 1, ready, if ok then i else i + 1, picks)
      ensures queueing ==> TurnChoices(machine, c, picks) && simpleCursor == Cursor(machine, c, picks)
      ensures AllClosed(ready, if ok then i else i + 1)
      ensures before == [] ==> (ok <==> !Closed(start.todo, start.ready[i]))
    {
      ghost var task := ready[i];
      ghost var pe, at;
      ok, pe, at, picks := OfferAndLeave(i, d, start, before);
      if ok && !queueing {
        free := free - 1;
      }
      if ok && queueing {
        TurnNext(machine, c, before, Pick(task, pe, at));
      }
      none := !queueing && free == 0;
    }

    /** Whether a round of SIMPLE places anything: with no PE counted free it gives up after the first
        task. */
    ghost predicate SimplePlaces(s: Start, free0: int)
      requires Fits(s) && |busy| == machine.Pes()
      reads this`busy
    {
      exists k: nat :: k < |s.ready| && (queueing || free0 != 0 || k == 0) && !Closed(s.todo, s.ready[k])
    }

    lemma SimpleWitness(s: Start, free0: int, k: nat)
      requires Fits(s) && |busy| == machine.Pes() && k < |s.ready| && (queueing || free0 != 0 || k == 0)
      requires !Closed(s.todo, s.ready[k])
      ensures SimplePlaces(s, free0)
    {
    }

    /** The loop over the queue. */
    method VisitAllSimple(ghost start: Start)
      returns (count: nat, ghost picks: seq<Pick>, ghost d: nat, ghost i: nat)
      requires Valid() && Fits(start) && ready == start.ready
      requires InRound(start, []) && Walk(machine, queueing, start.ready, 0, ready, 0, [])
      modifies this`ready, this`todo, this`avail, this`ticks, this`simpleCursor, this`free
      ensures Valid() && InRound(start, picks) && count == |picks| && i <= |ready|
      ensures Walk(machine, queueing, start.ready, d, ready, i, picks) && AllClosed(ready, i)
      ensures queueing ==> TurnChoices(machine, old(simpleCursor), picks) &&
                           simpleCursor == Cursor(machine, old(simpleCursor), picks)
      ensures free == old(free) - (if queueing then 0 else count) && (queueing || free != 0 ==> i == |ready|)
      ensures picks != [] <==> SimplePlaces(start, old(free))
    {
      count, picks, d := 0, [], 0;
      ghost var c := simpleCursor;
      var k := 0;
      var none := false;
      while k < |ready| && !none
        invariant Valid() && count == |picks| && InRound(start, picks) && k <= |ready|
        invariant none ==> !queueing && free == 0 && (picks == [] ==> k > 0)
        invariant Walk(machine, queueing, start.ready, d, ready, k, picks) && AllClosed(ready, k)
        invariant queueing ==> TurnChoices(machine, c, picks) && simpleCursor == Cursor(machine, c, picks)
        invariant free == old(free) - if queueing then 0 else count
        invariant picks == [] ==> ready == start.ready && forall u: nat :: u < k ==> Closed(start.todo, start.ready[u])
        invariant picks == [] && k > 0 && !queueing && free == 0 ==> none
        invariant picks != [] ==> SimplePlaces(start, old(free))
        decreases |ready| - k
      {
        var ok;
        if picks == [] && !Closed(start.todo, start.ready[k]) {
          SimpleWitness(start, old(free), k);
        }
        ok, none, picks := VisitSimple(k, d, c, start, picks);
        d := d + 1;
        if ok {
          count := count + 1;
        } else {
          k := k + 1;
        }
      }
      i := k;
    }

    method ScheduleSimple() returns (count: nat, ghost picks: seq<Pick>)
      requires Valid()
      modifies this`ready, this`todo, this`avail, this`ticks, this`simpleCursor, this`free
      ensures Valid() && Moved(old(Now()), picks) && count == |picks|
      ensures queueing ==> Drained(machine, old(ready), ready, picks)
      ensures queueing ==> TurnChoices(machine, old(simpleCursor), picks) &&
                           simpleCursor == Cursor(machine, old(simpleCursor), picks)
      ensures free == old(free) - if queueing then 0 else count
      ensures queueing || free != 0 ==> AllClosed(ready, |ready|)
      ensures picks != [] <==> SimplePlaces(old(Now()), old(free))
    {
      ghost var start, d, i := Now(), 0, 0;
      RoundStarts(start);
      count, picks, d, i := VisitAllSimple(start);
      RoundMeans(start, picks);
      if queueing {
        WalkEnds(machine, queueing, start.ready, d, ready, i, picks);
      }
    }

    /** shuffled is whatever order std::shuffle leaves the queue in. */
    method ScheduleRandom(shuffled: seq<Task>) returns (count: nat, ghost picks: seq<Pick>)
      requires Valid() && multiset(shuffled) == multiset(ready)
      modifies this`ready, this`todo, this`avail, this`ticks, this`simpleCursor, this`free
      ensures Valid() && Moved(old(Now()), picks) && count == |picks|
      ensures queueing ==> Drained(machine, shuffled, ready, picks)
      ensures queueing ==> TurnChoices(machine, old(simpleCursor), picks)
      ensures free == old(free) - if queueing then 0 else count
      ensures queueing || free != 0 ==> AllClosed(ready, |ready|)
      ensures picks != [] <==> SimplePlaces(old(Now()).(ready := shuffled), old(free))
    {
      ready := shuffled;
      count, picks := ScheduleSimple();
    }

    // ---- MET ----

    /** The cheapest of the configured resource types that task supports; of equals the type of the
        PE with the highest index. With none supported, type 0. */
    method FindCheapest(task: Task) returns (resource: nat)
      requires Valid()
      ensures machine.MetType(task, resource) && (machine.RunnableTask(task) ==> machine.CheapestType(task, resource))
    {
      resource := 0;
      var found, least := false, 0;
      ghost var best := 0;
      for i := machine.Pes() downto 0
        invariant found ==> i <= best < machine.Pes() && machine.Supports(task, best) && machine.types[best] == resource
        invariant found ==> least == machine.cost(task.api, resource)
        invariant found ==> forall k: nat :: i <= k < machine.Pes() && machine.Supports(task, k) ==>
                              least <= machine.Cost(task, k) && (k > best ==> least < machine.Cost(task, k))
        invariant !found ==> resource == 0 && forall k: nat :: i <= k < machine.Pes() ==> !machine.Supports(task, k)
      {
        if (!found || machine.Cost(task, i) < least) && machine.Supports(task, i) {
          found, least, resource := true, machine.Cost(task, i), machine.types[i];
          best := i;
        }
      }
      assert found ==> machine.CheapestTop(task, best);
    }

    /** With nothing placed yet, MET places a task if some PE of its type takes it. */
    lemma MetWilling(s: Start, now: int, task: Task, resource: nat)
      requires Fits(s) && Valid() && todo == s.todo && machine.policy == Met && machine.MetType(task, resource)
      ensures Willing(s, now, task) <==> !NoneTakes(task, Some(resource))
    {
      if Willing(s, now, task) {
        var pe: nat :| pe < machine.Pes() && Wants(s, now, task, pe) && Open(s.todo, task, pe);
        OneMetType(machine, task, resource, machine.types[pe]);
        assert !RefusedBy(pe, task, Some(resource));
      }
      if !NoneTakes(task, Some(resource)) {
        var pe: nat :| pe < machine.Pes() && !RefusedBy(pe, task, Some(resource));
        assert Wants(s, now, task, pe) && Open(s.todo, task, pe);
      }
    }

    /** A PE of the type MET settles on is as cheap as any that supports the task. */
    lemma TypeIsCheapest(p: Pick)
      requires p.pe < machine.Pes() && machine.MetType(p.task, machine.types[p.pe]) && machine.Supports(p.task, p.pe)
      ensures machine.CheapestChoice(p)
    {
      assert machine.RunnableTask(p.task);
      var best: nat :| machine.CheapestTop(p.task, best) && machine.types[best] == machine.types[p.pe];
    }

    method OfferToType(i: nat, ghost now: int, ghost d: nat, ghost start: Start, ghost before: seq<Pick>)
      returns (ok: bool, ghost picks: seq<Pick>)
      requires Valid() && machine.policy == Met && i < |ready| && Fits(start)
      requires InRound(start, before) && Walk(machine, queueing, start.ready, d, ready, i, before)
      requires machine.CheapestChoices(before)
      requires before == [] ==> ready == start.ready && NoneWilling(start, now, i)
      modifies this`ready, this`todo, this`avail, this`ticks, this`metCursor
      ensures Valid() && InRound(start, picks) && machine.CheapestChoices(picks)
      ensures if ok then |picks| == |before| + 1 && |ready| == old(|ready|) - 1
              else picks == before && ready == old(ready)
      ensures Walk(machine, queueing, start.ready, d + 1, ready, if ok then i else i + 1, picks)
      ensures picks == [] ==> ready == start.ready && NoneWilling(start, now, i + 1)
    {
      ghost var queue, at, pe := ready, clock(ticks), 0;
      var resource := FindCheapest(ready[i]);
      if queueing && machine.RunnableTask(ready[i]) {
        TypeTakes(ready[i], resource);
      }
      if before == [] {
        RoundState(start, before);
        MetWilling(start, now, ready[i], resource);
        OneWilling(start, now, i);
      }
      ok, metCursor, pe, picks := PlaceAround(i, metCursor, Some(resource), start, before);
      if ok {
        WalkPlaced(machine, queueing, start.ready, d, queue, i, before, Pick(queue[i], pe, at));
        TypeIsCheapest(Pick(queue[i], pe, at));
        CheapestNext(machine, before, Pick(queue[i], pe, at));
      } else {
        WalkSkipped(machine, queueing, start.ready, d, queue, i, before);
      }
    }

    method VisitMet(i: nat, ghost now: int, ghost d: nat, ghost start: Start, ghost before: seq<Pick>)
      returns (ok: bool, none: bool, ghost picks: seq<Pick>)
      requires Valid() && machine.policy == Met && i < |ready| && Fits(start)
      requires InRound(start, before) && Walk(machine, queueing, start.ready, d, ready, i, before)
      requires machine.CheapestChoices(before)
      requires before == [] ==> ready == start.ready && NoneWilling(start, now, i)
      modifies this`ready, this`todo, this`avail, this`ticks, this`metCursor, this`free
      ensures Valid() && InRound(start, picks) && machine.CheapestChoices(picks)
      ensures free == old(free) - (if ok && !queueing then 1 else 0) && none == (ok && !queueing && free == 0)
      ensures if ok then |picks| == |before| + 1 && |ready| == old(|ready|) - 1
              else picks == before && ready == old(ready)
      ensures Walk(machine, queueing, start.ready, d + 1, ready, if ok then i else i + 1, picks)
      ensures picks == [] ==> ready == start.ready && NoneWilling(start, now, i + 1)
    {
      ok, picks := OfferToType(i, now, d, start, before);
      none := false;
      if ok {
        none := TakeFree();
      }
    }

    /** The loop over the queue; without queueing it ends early when no PE is left. */
    method VisitAllMet(ghost now: int, ghost start: Start)
      returns (count: nat, ghost picks: seq<Pick>, ghost d: nat, ghost i: nat)
      requires Valid() && machine.policy == Met && Fits(start) && ready == start.ready
      requires InRound(start, []) && Walk(machine, queueing, start.ready, 0, ready, 0, [])
      modifies this`ready, this`todo, this`avail, this`ticks, this`metCursor, this`free
      ensures Valid() && InRound(start, picks) && count == |picks| && machine.CheapestChoices(picks)
      ensures i <= |ready| && (queueing ==> i == |ready|) && Walk(machine, queueing, start.ready, d, ready, i, picks)
      ensures free == old(free) - if queueing then 0 else count
      ensures picks == [] ==> NoneWilling(start, now, |start.ready|)
    {
      count, picks, d := 0, [], 0;
      var k := 0;
      var none := false;
      while k < |ready| && !none
        invariant k <= |ready| && Valid() && count == |picks| && InRound(start, picks)
        invariant Walk(machine, queueing, start.ready, d, ready, k, picks)
        invariant machine.CheapestChoices(picks) && (none ==> !queueing && picks != [])
        invariant free == old(free) - if queueing then 0 else count
        invariant picks == [] ==> ready == start.ready && NoneWilling(start, now, k)
        decreases |ready| - k
      {
        var ok;
        ok, none, picks := VisitMet(k, now, d, start, picks);
        d := d + 1;
        if ok {
          count := count + 1;
        } else {
          k := k + 1;
        }
      }
      i := k;
    }

    method ScheduleMet() returns (count: nat, ghost picks: seq<Pick>)
      requires Valid() && machine.policy == Met
      modifies this`ready, this`todo, this`avail, this`ticks, this`metCursor, this`free
      ensures Valid() && Moved(old(Now()), picks) && count == |picks|
      ensures queueing ==> Drained(machine, old(ready), ready, picks)
      ensures machine.CheapestChoices(picks)
      ensures free == old(free) - if queueing then 0 else count
      ensures picks != [] <==> SomeWilling(old(Now()), clock(old(ticks)))
    {
      ghost var start, now, d, i := Now(), clock(ticks), 0, 0;
      RoundStarts(start);
      count, picks, d, i := VisitAllMet(now, start);
      RoundMeans(start, picks);
      if queueing {
        WalkEnds(machine, queueing, start.ready, d, ready, i, picks);
      }
      if picks != [] {
        assert machine.CheapestChoice(picks[0]);
        FirstWasWilling(start, now, picks);
      }
    }

    // ---- the round ----

    /** Whether a round with the queue in this order places something. */
    ghost predicate RoundPlaces(s: Start, free0: int, now: int)
      requires Fits(s) && |busy| == machine.Pes()
      reads this`busy
    {
      if machine.policy == Simple || machine.policy == Random then SimplePlaces(s, free0) else SomeWilling(s, now)
    }

    /** The batch as the policy finds it. */
    ghost function Batch(shuffled: seq<Task>): Start
      reads this`ready, this`todo, this`avail, this`ticks
    {
      if machine.policy == Random then Now().(ready := shuffled) else Now()
    }

    /** The choice by policy name. */
    method RunPolicy(shuffled: seq<Task>) returns (count: nat, ghost picks: seq<Pick>)
      requires Valid() && multiset(shuffled) == multiset(ready)
      requires machine.policy == HeftRt || machine.policy == Etf ==> machine.Runnable(ready)
      modifies this`ready, this`todo, this`avail, this`ticks, this`simpleCursor, this`metCursor, this`free
      ensures Valid() && Moved(old(Now()), picks) && count == |picks|
      ensures picks != [] <==> RoundPlaces(old(Batch(shuffled)), old(free), clock(old(ticks)))
      ensures free == old(free) - if queueing || machine.policy == HeftRt then 0 else count
      ensures queueing && (machine.policy == HeftRt || machine.policy == Etf) ==> ready == []
      ensures queueing && machine.policy != HeftRt && machine.policy != Etf ==>
                Drained(machine, old(Batch(shuffled)).ready, ready, picks)
    {
      match machine.policy {
        case Simple => count, picks := ScheduleSimple();
        case Random => count, picks := ScheduleRandom(shuffled);
        case Met => count, picks := ScheduleMet();
        case HeftRt =>
          ghost var sorted;
          count, picks, sorted := ScheduleHeftRt();
        case Eft => count, picks := ScheduleEft();
        case Etf => count, picks := ScheduleEtf();
      }
    }

    /** performScheduling; running is false when the daemon exits because it placed nothing. That
        happens exactly when no PE the policy first has in mind for a task takes it: without
        queueing, when those PEs are all busy. */
    method PerformScheduling(shuffled: seq<Task>) returns (running: bool, ghost picks: seq<Pick>)
      requires Valid() && multiset(shuffled) == multiset(ready)
      requires machine.policy == HeftRt || machine.policy == Etf ==> machine.Runnable(ready)
      modifies this`ready, this`todo, this`avail, this`ticks, this`simpleCursor, this`metCursor, this`free
      ensures Valid() && Moved(old(Now()), picks)
      ensures running == (old(ready) == [] || RoundPlaces(old(Batch(shuffled)), old(free), clock(old(ticks))))
      ensures running == (old(ready) == [] || picks != [])
      ensures free == old(free) - if queueing || machine.policy == HeftRt then 0 else |picks|
      ensures queueing && old(machine.Runnable(ready)) ==> running && ready == []
    {
      picks, running := [], true;
      if ready == [] {
        DidNothing(machine, queueing, ready, todo, avail);
        return;
      }
      ghost var batch := Batch(shuffled).ready;
      var count;
      count, picks := RunPolicy(shuffled);
      if queueing && old(machine.Runnable(ready)) {
        SameTasks(machine, old(ready), batch);
        AllRunnable(machine, batch, |batch|);
        SomethingPlaced(old(ready), picks);
      }
      running := count != 0;
    }

    lemma SomethingPlaced(batch: seq<Task>, picks: seq<Pick>)
      requires batch != []
      ensures Tasks(picks) == multiset(batch) ==> picks != []
    {
      assert batch[0] in multiset(batch);
    }
  }
}
