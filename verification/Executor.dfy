/** The executor object: it owns the threads, swaps contexts in and out and picks who runs next. */
module Executor {
  import opened Threads
  import opened ThreadInvariants
  import opened WaitQueues
  import opened Scheduling
  import opened Wakeups

  // ---- Why looking for a thread to run comes to an end ----

  predicate Timed(x: Thread) { x.active && x.block.OnCondition? && x.block.deadline.Some? }

  function TimedWaiters(ts: seq<Thread>): nat {
    if ts == [] then 0 else TimedWaiters(ts[..|ts| - 1]) + (if Timed(ts[|ts| - 1]) then 1 else 0)
  }

  lemma {:induction false} TimedWaitersUpdate(ts: seq<Thread>, t: nat, x: Thread)
    requires t < |ts|
    ensures TimedWaiters(ts[t := x]) == TimedWaiters(ts) - (if Timed(ts[t]) then 1 else 0) + (if Timed(x) then 1 else 0)
  {
    var last := |ts| - 1;
    if t == last {
      assert ts[t := x][..last] == ts[..last];
    } else {
      TimedWaitersUpdate(ts[..last], t, x);
      assert ts[t := x][..last] == ts[..last][t := x];
    }
  }

  /** When a blocked thread's wait ends by itself. */
  function Alarm(x: Thread): Option<Time> {
    if !x.active then None
    else if x.block.Sleeping? then Some(x.block.until)
    else if x.block.OnCondition? then x.block.deadline
    else None
  }

  /** A look that lets nobody run either leaves the thread as it is or ends its timed wait. */
  lemma SkipEffect(w: World, t: ThreadId, now: Time)
    requires t < |w.threads| && TryWake(w, t, now).1.Skip?
    ensures var w' := TryWake(w, t, now).0;
      || (w'.threads == w.threads && (Alarm(w.threads[t]).Some? ==>
            Alarm(w.threads[t]).value > now && TryWake(w, t, now).1.next == Alarm(w.threads[t])))
      || TimedWaiters(w'.threads) < TimedWaiters(w.threads)
    ensures TryWake(w, t, now).1.next == Alarm(TryWake(w, t, now).0.threads[t])
  {
    var w' := TryWake(w, t, now).0;
    if w.threads[t].active {
      var k := LookAt(w.res, w.threads, t, now);
      TimedWaitersUpdate(w.threads, t, w.threads[t].(block := k.block));
    }
  }

  /** A pass that chooses nobody never starts a timed wait ... */
  lemma {:induction false} NoTimedWaitBegins(w: World, i: nat, now: Time, next: Option<Time>)
    requires w.current < |w.threads| && i <= |w.threads| && Pass(w, i, now, next).1.Nobody?
    ensures TimedWaiters(Pass(w, i, now, next).0.threads) <= TimedWaiters(w.threads)
    decreases |w.threads| - i
  {
    if i == |w.threads| {
      PassEnds(w, now, next);
    } else {
      var t, w1 := SkipStep(w, i, now, next);
      SkipEffect(w, t, now);
      hide Pass, TryWake, TimedWaiters, Alarm, Place, Candidate;
      NoTimedWaitBegins(w1, i + 1, now, Sooner(next, Alarm(w1.threads[t])));
    }
  }

  /** ... and ends one if an alarm is due. */
  lemma {:induction false} FruitlessPass(w: World, i: nat, now: Time, next: Option<Time>, due: ThreadId)
    requires w.current < |w.threads| && i <= |w.threads| && Pass(w, i, now, next).1.Nobody?
    requires due < |w.threads| && i <= Place(w, due) && Alarm(w.threads[due]).Some? && Alarm(w.threads[due]).value <= now
    ensures TimedWaiters(Pass(w, i, now, next).0.threads) < TimedWaiters(w.threads)
    decreases |w.threads| - i
  {
    PlaceOfCandidate(w, due);
    var t, w1 := SkipStep(w, i, now, next);
    SkipEffect(w, t, now);
    hide Pass, TryWake, TimedWaiters, Alarm, Place, Candidate;
    if w1.threads == w.threads {
      FruitlessPass(w1, i + 1, now, Sooner(next, Alarm(w1.threads[t])), due);
    } else {
      NoTimedWaitBegins(w1, i + 1, now, Sooner(next, Alarm(w1.threads[t])));
    }
  }

  predicate NoLater(a: Option<Time>, b: Option<Time>) { b.Some? ==> a.Some? && a.value <= b.value }

  /** The time a pass reports to wake up at is not after the alarm of any thread left blocked. */
  lemma {:induction false} NoAlarmBefore(w: World, i: nat, now: Time, next: Option<Time>, u: ThreadId)
    requires w.current < |w.threads| && i <= |w.threads| && Pass(w, i, now, next).1.Nobody? && u < |w.threads|
    ensures var (w', d) := Pass(w, i, now, next);
      && NoLater(d.next, next)
      && if Place(w, u) < i then w'.threads[u] == w.threads[u] else NoLater(d.next, Alarm(w'.threads[u]))
    decreases |w.threads| - i
  {
    PlaceOfCandidate(w, u);
    hide Alarm, Place, Candidate;
    if i < |w.threads| {
      var c, w1 := SkipStep(w, i, now, next);
      hide Pass;
      NoAlarmBefore(w1, i + 1, now, Sooner(next, Alarm(w1.threads[c])), u);
    } else {
      PassEnds(w, now, next);
    }
  }

  /** A look in a pass that chooses nobody, and the pass from there on. */
  lemma SkipStep(w: World, i: nat, now: Time, next: Option<Time>) returns (c: ThreadId, w1: World)
    requires w.current < |w.threads| && i < |w.threads| && Pass(w, i, now, next).1.Nobody?
    ensures c < |w.threads| == |w1.threads| && w1.current == w.current && Place(w, c) == i && w1 == TryWake(w, c, now).0
    ensures TryWake(w, c, now).1.Skip?
    ensures Pass(w, i, now, next) == Pass(w1, i + 1, now, Sooner(next, Alarm(w1.threads[c])))
    ensures forall u | 0 <= u < |w.threads| && u != c :: w1.threads[u] == w.threads[u]
    ensures forall u: nat | u < |w.threads| :: Place(w1, u) == Place(w, u) && (Place(w, u) == i ==> u == c)
  {
    c := Candidate(w, i);
    PlaceOfCandidate(w, c);
    SkipEffect(w, c, now);
    PassStep(w, i, now, next);
    LookChangesOne(w, c, now);
    w1 := TryWake(w, c, now).0;
    forall u: nat | u < |w.threads| && Place(w, u) == i ensures u == c { PlaceOfCandidate(w, u); }
    hide Pass, TryWake, TimedWaiters, Alarm;
  }

  /** The time a pass reports to wake up at is the alarm of some thread left blocked. */
  lemma {:induction false} ReportedAlarm(w: World, i: nat, now: Time, next: Option<Time>) returns (t: Option<ThreadId>)
    requires w.current < |w.threads| && i <= |w.threads| && Pass(w, i, now, next).1.Nobody?
    ensures var (w', d) := Pass(w, i, now, next);
      match t
      case None => d.next == next
      case Some(u) => u < |w'.threads| && d.next.Some? && Alarm(w'.threads[u]) == d.next
    decreases |w.threads| - i
  {
    hide Alarm, Place, Candidate;
    if i == |w.threads| {
      PassEnds(w, now, next);
      return None;
    }
    var c, w1 := SkipStep(w, i, now, next);
    hide Pass;
    var alarm := Alarm(w1.threads[c]);
    t := ReportedAlarm(w1, i + 1, now, Sooner(next, alarm));
    if t.None? && Sooner(next, alarm) != next {
      NoAlarmBefore(w1, i + 1, now, Sooner(next, alarm), c);
      return Some(c);
    }
  }

  lemma LookChangesOne(w: World, t: ThreadId, now: Time)
    requires t < |w.threads|
    ensures var w' := TryWake(w, t, now).0;
      && |w'.threads| == |w.threads| && w'.current == w.current
      && (forall u | 0 <= u < |w.threads| && u != t :: w'.threads[u] == w.threads[u])
      && (w.current < |w.threads| ==> forall u: nat | u < |w.threads| :: Place(w', u) == Place(w, u))
  {
    hide LookAt;
  }

  /** Successive passes at the given times, as long as nobody can run. */
  function Passes(w: World, times: seq<Time>): (World, Decision)
    requires w.current < |w.threads| && times != []
    decreases |times|
  {
    var (w1, d) := Pass(w, 0, times[0], None);
    if |times| == 1 || !d.Nobody? then (w1, d) else Passes(w1, times[1..])
  }

  lemma {:induction false} PassesExtend(w: World, times: seq<Time>, now: Time)
    requires w.current < |w.threads| && times != [] && Passes(w, times).1.Nobody?
    ensures Passes(w, times).0.current < |Passes(w, times).0.threads|
    ensures Passes(w, times + [now]) == Pass(Passes(w, times).0, 0, now, None)
    decreases |times|
  {
    var (w1, d) := Pass(w, 0, times[0], None);
    assert (times + [now])[0] == times[0] && (times + [now])[1..] == times[1..] + [now];
    if |times| > 1 { PassesExtend(w1, times[1..], now); }
  }

  function Decided(next: Option<ThreadId>): Decision { if next.Some? then Chosen(next.value) else Nobody(None) }

  /** The world in which the last of these passes begins. */
  function BeforeLast(w: World, times: seq<Time>): World
    requires w.current < |w.threads| && times != []
  {
    if |times| == 1 then w else Passes(w, times[..|times| - 1]).0
  }

  /** Between passes: nobody could run so far. */
  predicate Fruitless(w: World, times: seq<Time>, before: World)
    requires w.current < |w.threads|
  {
    if times == [] then before == w else Passes(w, times).0 == before && Passes(w, times).1.Nobody?
  }

  lemma NoPassYet(w: World)
    requires w.current < |w.threads|
    ensures Fruitless(w, [], w)
  {}

  lemma OneMorePass(w: World, times: seq<Time>, before: World, now: Time)
    requires w.current < |w.threads| && Fruitless(w, times, before)
    ensures before.current < |before.threads| && Passes(w, times + [now]) == Pass(before, 0, now, None)
    ensures BeforeLast(w, times + [now]) == before
    ensures Pass(before, 0, now, None).1.Nobody? ==> Fruitless(w, times + [now], Pass(before, 0, now, None).0)
  {
    assert (times + [now])[..|times|] == times;
    if times != [] { PassesExtend(w, times, now); }
  }

  lemma PassKeepsWorld(w: World, now: Time)
    requires WorldOk(w) && w.deciding
    ensures WorldOk(Pass(w, 0, now, None).0)
  {
    PassContexts(w, 0, now, None);
    PassSemaphores(w, 0, now, None);
    PassQueues(w, 0, now, None);
  }

  /** The earliest time at which a wait ends by itself, if any does. */
  ghost predicate IsFirstAlarm(ts: seq<Thread>, at: Option<Time>) {
    && (at.Some? ==> exists u | 0 <= u < |ts| :: Alarm(ts[u]) == at)
    && forall u | 0 <= u < |ts| :: NoLater(at, Alarm(ts[u]))
  }

  /** One round of a valid world: it crashes nowhere, a choice is safe to switch to, and a round
      without a choice either ends a timed wait or reports an alarm that was not due yet. */
  lemma Round(w: World, now: Time, due: Option<ThreadId>) returns (alarm: Option<ThreadId>)
    requires WorldOk(w) && w.deciding
    requires due.Some? ==> due.value < |w.threads|
    requires due.Some? ==> Alarm(w.threads[due.value]).Some? && Alarm(w.threads[due.value]).value <= now
    ensures var (w', d) := Pass(w, 0, now, None);
      && WorldOk(w') && w'.deciding && !d.Crashed?
      && (d.Chosen? ==> SwitchSafe(w', d.thread))
      && (d.Nobody? ==> TimedWaiters(w'.threads) <= TimedWaiters(w.threads))
      && (d.Nobody? && due.Some? ==> TimedWaiters(w'.threads) < TimedWaiters(w.threads))
      && (d.Nobody? && d.next.Some? ==> alarm.Some? && alarm.value < |w'.threads| && Alarm(w'.threads[alarm.value]) == d.next)
      && (d.Nobody? ==> IsFirstAlarm(w'.threads, d.next))
  {
    PassKeepsWorld(w, now);
    PassContexts(w, 0, now, None);
    DecideQueues(w, now);
    DecideContexts(w, now);
    alarm := None;
    if Pass(w, 0, now, None).1.Nobody? {
      NoTimedWaitBegins(w, 0, now, None);
      if due.Some? { FruitlessPass(w, 0, now, None, due.value); }
      alarm := ReportedAlarm(w, 0, now, None);
      var (w', d) := Pass(w, 0, now, None);
      forall u | 0 <= u < |w'.threads| ensures NoLater(d.next, Alarm(w'.threads[u])) { NoAlarmBefore(w, 0, now, None, u); }
      assert alarm.Some? ==> 0 <= alarm.value < |w'.threads| && Alarm(w'.threads[alarm.value]) == d.next;
    }
  }

  /** What a decision is for: to choose the first thread whose wait is over and give it what it waited
      for, or, if there is none, to say when to look again. */
  ghost predicate Meets(w: World, now: Time, w': World, d: Decision) {
    && !d.Crashed?
    && (d.Chosen? ==> FirstDue(w, d.thread, now) && Fulfilled(w, d.thread, w'))
    && (d.Nobody? ==> NobodyDue(w, now) && IsFirstAlarm(w'.threads, d.next))
  }

  lemma PassMeets(w: World, now: Time)
    requires WorldOk(w) && w.deciding
    ensures var (w', d) := Pass(w, 0, now, None); Meets(w, now, w', d)
  {
    assert w.current < |w.threads|;
    hide WorldOk, Pass, FirstDue, NobodyDue, Fulfilled, IsFirstAlarm;
    DecisionFindsTheDue(w, now);
    var d := Pass(w, 0, now, None).1;
    if d.Chosen? {
      ChosenIsFulfilled(w, now);
    } else {
      var alarm := Round(w, now, None);
    }
  }

  /** One look of a pass. */
  lemma PassStep(w: World, i: nat, now: Time, next: Option<Time>)
    requires w.current < |w.threads| && i < |w.threads|
    ensures var t := Candidate(w, i);
      var (w1, v) := TryWake(w, t, now);
      && |w1.threads| == |w.threads| && w1.current == w.current
      && Pass(w, i, now, next) ==
        match v
        case Wake => (w1, Chosen(t))
        case Panic => (w1, Crashed)
        case Skip(a) => Pass(w1, i + 1, now, Sooner(next, a))
  {
    hide LookAt;
  }

  lemma PassEnds(w: World, now: Time, next: Option<Time>)
    requires w.current < |w.threads|
    ensures Pass(w, |w.threads|, now, next) == (w, Nobody(next))
  {}

  class Environment {
    var threads: seq<Thread>
    var currentThread: ThreadId
    var cpu: Registers
    var hostContext: Option<ThreadId>
    var deciding: bool
    var res: Resources

    function State(): World
      reads this
    {
      World(threads, currentThread, cpu, hostContext, deciding, res)
    }

    ghost predicate Valid()
      reads this
    {
      WorldOk(State())
    }

    constructor (cpu: Registers)
      ensures State() == Boot(cpu) && Valid()
    {
      threads, currentThread, this.cpu := [Thread(true, NotBlocked, None, None, None, None, Some(MAIN_THREAD_STACK_LOW_END))], 0, cpu;
      hostContext, deciding := Some(0), false;
      res := Resources(map[], map[], map[], map[], map[]);
    }

    method NewThread(start: Registers, stack: Pointer) returns (id: ThreadId)
      requires Valid() && !deciding
      modifies this`threads
      ensures State() == Spawn(old(State()), start, stack) && Valid()
      ensures id == |old(threads)| && threads[..id] == old(threads) && |threads| == id + 1
      ensures threads[id] == Thread(true, NotBlocked, None, Some(start), Some(id), None, Some(stack))
    {
      StepKeeps(State(), SpawnThread(start, stack));
      threads := threads + [Thread(true, NotBlocked, None, Some(start), Some(|threads|), None, Some(stack))];
      id := |threads| - 1;
    }

    method YieldThread(block: Block)
      requires ContextsOk(State()) && !deciding
      modifies this`threads, this`deciding
      ensures State() == YieldOn(old(State()), block)
    {
      assert threads[currentThread].block == NotBlocked;
      threads := threads[currentThread := threads[currentThread].(block := block)];
      deciding := true;
    }

    method SemDecrement(sem: Pointer, waitOnLock: bool) returns (ok: bool)
      requires Valid() && !deciding
      modifies this`threads, this`deciding, this`res
      ensures State() == SemWait(old(State()), sem, waitOnLock) && Valid()
      ensures ok <==> sem in old(res).sems && (old(res).sems[sem].value > 0 || waitOnLock)
      ensures deciding <==> ok && old(res).sems[sem].value <= 0
      ensures deciding ==> currentThread < |threads| && threads[currentThread].block == OnSemaphore(sem)
      ensures ok && !deciding ==> threads == old(threads) && sem in res.sems && res.sems[sem].value == old(res).sems[sem].value - 1
      ensures !ok ==> State() == old(State())
    {
      StepKeeps(State(), WaitSemaphore(sem, waitOnLock));
      if sem !in res.sems { return false; }
      var x := res.sems[sem];
      if x.value > 0 {
        res := res.(sems := res.sems[sem := x.(value := x.value - 1)]);
        return true;
      }
      if !waitOnLock { return false; }
      res := res.(sems := res.sems[sem := x.(waiting := x.waiting + {currentThread})]);
      YieldThread(OnSemaphore(sem));
      return true;
    }

    method SemIncrement(sem: Pointer) returns (ok: bool)
      requires Valid() && !deciding
      modifies this`res
      ensures State() == SemPost(old(State()), sem) && Valid() && ok == (sem in old(res).sems)
      ensures ok ==> sem in res.sems && res.sems[sem] == old(res).sems[sem].(value := old(res).sems[sem].value + 1)
    {
      StepKeeps(State(), PostSemaphore(sem));
      if sem !in res.sems { return false; }
      res := res.(sems := res.sems[sem := res.sems[sem].(value := res.sems[sem].value + 1)]);
      return true;
    }

    method SuspendOther(thread: ThreadId)
      requires Valid() && !deciding && thread < |threads|
      modifies this`threads, this`deciding
      ensures State() == Suspend(old(State()), thread) && Valid()
      ensures var b := old(threads)[thread].block;
        SuspendedBy(State(), thread, if b.Suspended? then b.count + 1 else 1, Inner(b))
      ensures deciding <==> thread == currentThread
    {
      StepKeeps(State(), SuspendThread(thread));
      var previous := threads[thread].block;
      if previous.Suspended? {
        threads := threads[thread := threads[thread].(block := previous.(count := previous.count + 1))];
      } else if thread == currentThread {
        YieldThread(Suspended(1, previous));
      } else {
        threads := threads[thread := threads[thread].(block := Suspended(1, previous))];
      }
    }

    method ResumeOther(thread: ThreadId)
      requires Valid() && !deciding && thread < |threads|
      modifies this`threads
      ensures State() == Resume(old(State()), thread) && Valid()
      ensures var b := old(threads)[thread].block;
        if b.Suspended? && b.count > 1 then SuspendedBy(State(), thread, b.count - 1, b.inner)
        else |threads| == |old(threads)| && threads[thread].block == Inner(b)
    {
      StepKeeps(State(), ResumeThread(thread));
      var b := threads[thread].block;
      if b.Suspended? {
        assert b.count > 0;
        var next := if b.count > 1 then b.(count := b.count - 1) else b.inner;
        threads := threads[thread := threads[thread].(block := next)];
      }
    }

    /** The current thread's coroutine has returned; its stack is there and is given back. */
    method FinishCurrent(result: int) returns (stack: Pointer)
      requires Valid() && !deciding
      modifies this`threads, this`hostContext, this`deciding
      ensures State() == Finish(old(State()), result) && Valid()
      ensures Some(stack) == old(threads)[currentThread].stack && threads[currentThread].stack == None
      ensures Wakeups.Finished(State(), currentThread, Some(result)) && deciding && hostContext == None
    {
      StepKeeps(State(), FinishThread(result));
      stack := threads[currentThread].stack.value;
      threads := threads[currentThread := threads[currentThread].(active := false, returnValue := Some(result), stack := None)];
      hostContext, deciding := None, true;
    }

    /** Fulfils what one candidate waits for if that is possible now. */
    method TryCandidate(t: ThreadId, now: Time) returns (v: Verdict)
      requires t < |threads|
      modifies this`threads, this`res
      ensures (State(), v) == TryWake(old(State()), t, now)
    {
      if !threads[t].active { return Skip(None); }
      var k := LookAt(res, threads, t, now);
      threads := threads[t := threads[t].(block := k.block)];
      res := k.res;
      return k.verdict;
    }

    /** One round over all threads, starting after the current one. */
    method TryCandidates(now: Time) returns (d: Decision)
      requires currentThread < |threads|
      modifies this`threads, this`res
      ensures (State(), d) == Pass(old(State()), 0, now, None)
    {
      hide TryWake, LookAt, Pass, Candidate;
      ghost var w0 := State();
      var next: Option<Time> := None;
      var i := 0;
      while i < |threads|
        invariant i <= |threads| && currentThread < |threads|
        invariant Pass(w0, 0, now, None) == Pass(State(), i, now, next)
        decreases |threads| - i
      {
        CandidateIsCyclic(State(), i);
        PassStep(State(), i, now, next);
        ghost var w := State();
        var t := (currentThread + 1 + i) % |threads|;
        var v := TryCandidate(t, now);
        assert TryWake(w, t, now) == (State(), v) && t == Candidate(w, i);
        match v {
          case Wake => return Chosen(t);
          case Panic => return Crashed;
          case Skip(at) => next := Sooner(next, at);
        }
        i := i + 1;
      }
      PassEnds(State(), now, next);
      return Nobody(next);
    }

    /** A round: it chooses the first thread whose wait is over and gives it what it waited for, or
        says when the first wait ends; then the next round, once that is due, is nearer to the end. */
    method LookForThread(now: Time, ghost due: Option<ThreadId>) returns (d: Decision, ghost alarm: Option<ThreadId>)
      requires Valid() && deciding
      requires due.Some? ==> due.value < |threads| && Alarm(threads[due.value]).Some? && Alarm(threads[due.value]).value <= now
      modifies this`threads, this`res
      ensures Valid() && (State(), d) == Pass(old(State()), 0, now, None) && Meets(old(State()), now, State(), d) && !d.Crashed?
      ensures d.Chosen? ==> SwitchSafe(State(), d.thread)
      ensures d.Nobody? ==> TimedWaiters(threads) <= TimedWaiters(old(threads))
      ensures d.Nobody? && due.Some? ==> TimedWaiters(threads) < TimedWaiters(old(threads))
      ensures d.Nobody? && d.next.Some? ==> alarm.Some? && alarm.value < |threads| && Alarm(threads[alarm.value]) == d.next
    {
      assert currentThread < |threads|;
      hide WorldOk, Pass, TimedWaiters, Alarm, SwitchSafe, FirstDue, NobodyDue, Fulfilled, IsFirstAlarm;
      alarm := Round(State(), now, due);
      PassMeets(State(), now);
      d := TryCandidates(now);
    }

    /** Looks for a thread to run until there is one, sleeping whenever only time can help; None
        means that all threads are blocked for good. The host's sleep lasts at least as long as
        asked for. The number of rounds is bounded by the timed condition waits. */
    method ScheduleNextThread(start: Time) returns (next: Option<ThreadId>, ghost times: seq<Time>, ghost before: World)
      requires Valid() && deciding
      modifies this`threads, this`res
      ensures Valid() && (next.Some? ==> SwitchSafe(State(), next.value))
      ensures times != [] && Passes(old(State()), times) == (State(), Decided(next))
      ensures before == BeforeLast(old(State()), times) && Meets(before, times[|times| - 1], State(), Decided(next))
    {
      assert currentThread < |threads|;
      hide Meets, WorldOk, Pass, Passes, BeforeLast, Fruitless, TimedWaiters, Alarm, SwitchSafe;
      ghost var w0 := State();
      var now := start;
      times := [];
      NoPassYet(w0);
      ghost var due: Option<ThreadId> := None;
      while true
        invariant Valid() && deciding && currentThread < |threads|
        invariant Fruitless(w0, times, State())
        invariant due.Some? ==> due.value < |threads| && Alarm(threads[due.value]).Some? && Alarm(threads[due.value]).value <= now
        decreases TimedWaiters(threads), due.None?
      {
        before := State();
        OneMorePass(w0, times, before, now);
        var d;
        ghost var alarm;
        d, alarm := LookForThread(now, due);
        times := times + [now];
        match d {
          case Chosen(t) => return Some(t), times, before;
          case Nobody(at) =>
            if at.None? { return None, times, before; }
            due := alarm;
            now :| now >= at.value;
        }
      }
    }

    /** Puts the running contexts back into the current thread and takes the new thread's out. */
    method SwitchThread(newThread: ThreadId)
      requires Valid() && deciding && newThread != currentThread && SwitchSafe(State(), newThread)
      modifies this`threads, this`currentThread, this`cpu, this`hostContext
      ensures State() == SwitchTo(old(State()), newThread)
      ensures cpu == old(threads)[newThread].guest.value && hostContext == Some(newThread)
      ensures threads[old(currentThread)].guest == Some(old(cpu))
    {
      assert threads[newThread].active;
      var guestContext := threads[newThread].guest.value;
      threads := threads[newThread := threads[newThread].(guest := None)];
      var swapped := cpu;
      cpu := guestContext;
      assert threads[currentThread].guest.None?;
      assert hostContext.Some? || !threads[currentThread].active;
      threads := threads[currentThread := threads[currentThread].(guest := Some(swapped))];
      var newHostContext := threads[newThread].host;
      threads := threads[newThread := threads[newThread].(host := None)];
      threads := threads[currentThread := threads[currentThread].(host := hostContext)];
      hostContext := newHostContext;
      currentThread := newThread;
    }
  }
}
