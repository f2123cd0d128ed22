/** When a blocked thread may run again: the ends of waits, read off the world before a decision, and
    what decisions make of them. */
module Wakeups {
  import opened Threads
  import opened ThreadInvariants
  import opened WaitQueues
  import opened Scheduling

  // ---- The end of a wait ----

  /** At the head of the condition's queue of signalled threads. */
  predicate Signalled(x: Condition, t: ThreadId) { x.waking != [] && x.waking[0] == t }

  /** The thread is alive, and what it waits for is there. */
  predicate Due(w: World, t: ThreadId, now: Time)
    requires t < |w.threads|
  {
    var r := w.res;
    w.threads[t].active &&
    match w.threads[t].block
    case NotBlocked => true
    case Sleeping(until) => until <= now
    case OnMutex(m) => Free(r, Some(m))
    case OnSemaphore(s) => s in r.sems ==> r.sems[s].value > 0
    case OnCondition(c, deadline) =>
      c in r.conds && Free(r, r.conds[c].mutex) && (Signalled(r.conds[c], t) || (deadline.Some? && deadline.value <= now))
    case Joining(j, _) => j < |w.threads| ==> !w.threads[j].active
    case OnFile(f) => f in r.files && r.files[f].depth == 0
    case Suspended(_, _) => false
  }

  /** The thread's wait is over, and that of nobody between the current thread and it. */
  predicate FirstDue(w: World, t: ThreadId, now: Time) {
    && w.current < |w.threads| && t < |w.threads| && Due(w, t, now)
    && forall u | 0 <= u < |w.threads| && Place(w, u) < Place(w, t) :: !Due(w, u, now)
  }

  predicate NobodyDue(w: World, now: Time) { forall u | 0 <= u < |w.threads| :: !Due(w, u, now) }

  predicate QueuesOk(w: World) { SuspensionsOk(w) && SemaphoresOk(w) && RefsOk(w) && ConditionsOk(w) }

  lemma LookWakesTheDue(w: World, t: ThreadId, now: Time)
    requires t < |w.threads| && QueuesOk(w)
    ensures TryWake(w, t, now).1 == Wake <==> Due(w, t, now)
    ensures TryWake(w, t, now).1 != Panic
  {
    LookNeverPanics(w, t, now);
    var b := w.threads[t].block;
    assert RefOk(w.res, Inner(b)) && WaiterQueued(w, t);
    if b.OnCondition? { assert ConditionOk(w, b.cond); }
    if b.OnFile? { assert FileOk(w.res.files[b.file]); }
  }

  /** A look that lets nobody run neither begins nor ends anybody else's wait. */
  lemma SkipKeepsDue(w: World, t: ThreadId, now: Time, u: ThreadId)
    requires t < |w.threads| && u < |w.threads| && u != t && TryWake(w, t, now).1.Skip?
    ensures var w1 := TryWake(w, t, now).0; |w1.threads| == |w.threads| && (Due(w1, u, now) <==> Due(w, u, now))
  {
    if w.threads[t].active { SkipSameLocks(w.res, w.threads, t, now); }
    var w1 := TryWake(w, t, now).0;
    assert SameLocks(w.res, w1.res) && SameResults(w, w1) && w1.threads[u] == w.threads[u];
    hide TryWake, LookAt;
    SameDue(w, w1, u, now);
  }

  lemma SameDue(w: World, w1: World, u: ThreadId, now: Time)
    requires u < |w.threads| && SameResults(w, w1) && SameLocks(w.res, w1.res) && w1.threads[u] == w.threads[u]
    ensures Due(w1, u, now) <==> Due(w, u, now)
  {
    var b := w.threads[u].block;
    if b.OnCondition? && b.cond in w.res.conds && Free(w.res, w.res.conds[b.cond].mutex) {
      assert w1.res.conds[b.cond] == w.res.conds[b.cond];
    }
  }

  /** A pass from the i-th place on finds the first thread whose wait is over, if there is one. */
  lemma {:induction false} PassFindsTheDue(w: World, i: nat, now: Time, next: Option<Time>)
    requires w.current < |w.threads| && i <= |w.threads| && QueuesOk(w)
    ensures var d := Pass(w, i, now, next).1;
      && !d.Crashed?
      && (d.Chosen? ==>
            && d.thread < |w.threads| && i <= Place(w, d.thread) && Due(w, d.thread, now)
            && forall u | 0 <= u < |w.threads| && i <= Place(w, u) < Place(w, d.thread) :: !Due(w, u, now))
      && (d.Nobody? ==> forall u | 0 <= u < |w.threads| && i <= Place(w, u) :: !Due(w, u, now))
    decreases |w.threads| - i
  {
    hide QueuesOk, Due, TryWake;
    if i == |w.threads| {
      forall u | 0 <= u < |w.threads| ensures Place(w, u) < i { PlaceOfCandidate(w, u); }
    } else {
      var t := Candidate(w, i);
      var w1 := LookKeepsQueues(w, t, now);
      LookWakesTheDue(w, t, now);
      PlaceOfCandidate(w, t);
      if TryWake(w, t, now).1.Skip? {
        PassFindsTheDue(w1, i + 1, now, Sooner(next, TryWake(w, t, now).1.next));
        forall u | 0 <= u < |w.threads| && i <= Place(w, u)
          ensures Place(w1, u) == Place(w, u) && (u == t || (i + 1 <= Place(w, u) && (Due(w1, u, now) <==> Due(w, u, now))))
        {
          PlaceOfCandidate(w, u);
          if u != t { SkipKeepsDue(w, t, now, u); }
        }
      }
    }
  }

  lemma LookKeepsQueues(w: World, t: ThreadId, now: Time) returns (w1: World)
    requires t < |w.threads| && QueuesOk(w)
    ensures w1 == TryWake(w, t, now).0 && QueuesOk(w1) && |w1.threads| == |w.threads| && w1.current == w.current
  {
    LookKeeps(w, t, now);
    w1 := TryWake(w, t, now).0;
  }

  /** A decision chooses the first thread, in cyclic order after the current one, whose wait is over in
      the world before it, and nobody exactly if there is none. */
  lemma DecisionFindsTheDue(w: World, now: Time)
    requires WorldOk(w) && w.deciding
    ensures var d := Pass(w, 0, now, None).1;
      && !d.Crashed?
      && (forall t: ThreadId :: d == Chosen(t) <==> FirstDue(w, t, now))
      && (d.Nobody? <==> NobodyDue(w, now))
  {
    PassFindsTheDue(w, 0, now, None);
    var d := Pass(w, 0, now, None).1;
    hide QueuesOk, WorldOk, Due, Pass;
    forall t: ThreadId ensures d == Chosen(t) <==> FirstDue(w, t, now) {
      if FirstDue(w, t, now) && d.Chosen? {
        assert Place(w, t) == Place(w, d.thread);
        PlaceOfCandidate(w, t);
        PlaceOfCandidate(w, d.thread);
      }
    }
  }

  // ---- What a thread gets when its wait is over ----

  /** What joining the thread gives: its return value, 0 if it has none or does not exist. */
  function ResultOf(w: World, j: ThreadId): int {
    if j < |w.threads| && w.threads[j].returnValue.Some? then w.threads[j].returnValue.value else 0
  }

  /** The queue without the thread, the others in their order. */
  predicate TakenOut(q: seq<ThreadId>, q': seq<ThreadId>, t: ThreadId) {
    if t in q then exists i | 0 <= i < |q| :: q[i] == t && q' == q[..i] + q[i + 1..] else q' == q
  }

  lemma {:induction false} WithoutAbsent(q: seq<ThreadId>, t: ThreadId)
    requires t !in q
    ensures Without(q, t) == q
  {
    if q != [] {
      WithoutAbsent(q[1..], t);
      assert q == [q[0]] + q[1..];
    }
  }

  lemma {:induction false} WithoutAt(q: seq<ThreadId>, i: nat)
    requires NoDup(q) && i < |q|
    ensures Without(q, q[i]) == q[..i] + q[i + 1..]
  {
    HeadNotInTail(q);
    hide NoDup;
    if i == 0 {
      WithoutAbsent(q[1..], q[0]);
    } else {
      WithoutAt(q[1..], i - 1);
      assert q[..i] == [q[0]] + q[1..][..i - 1] && q[1..][i - 1 + 1..] == q[i + 1..];
    }
  }

  lemma WithoutTakesOut(q: seq<ThreadId>, t: ThreadId)
    requires NoDup(q)
    ensures TakenOut(q, Without(q, t), t)
  {
    hide Without;
    if t in q {
      var i :| 0 <= i < |q| && q[i] == t;
      WithoutAt(q, i);
    } else {
      WithoutAbsent(q, t);
    }
  }

  /** A signalled thread is taken off the head of its queue; a timed-out one leaves both queues, and
      the condition remembers that it timed out. */
  predicate LeftCondition(x: Condition, y: Condition, t: ThreadId) {
    if Signalled(x, t) then y == x.(waking := x.waking[1..])
    else
      && y.timedOut == x.timedOut + {t} && y.mutex == x.mutex
      && TakenOut(x.waking, y.waking, t) && TakenOut(x.waiting, y.waiting, t)
  }

  /** What the thread waited for is done for it: a joined thread's result is stored, a unit of the
      semaphore taken, the file locked, the condition left; and nothing of that kind for others. */
  predicate Fulfilled(w: World, t: ThreadId, w': World)
    requires t < |w.threads|
  {
    var r, r', b := w.res, w'.res, w.threads[t].block;
    && |w'.threads| == |w.threads| && w'.threads[t] == w.threads[t].(block := NotBlocked) && SameResults(w, w')
    && r'.mem == (if b.Joining? && b.result != 0 then r.mem[b.result := ResultOf(w, b.joinee)] else r.mem)
    && r'.files == (if b.OnFile? then r.files[b.file := FileLock(Some(t), 1)] else r.files)
    && r'.sems == (if b.OnSemaphore? && b.sem in r.sems
                   then r.sems[b.sem := Semaphore(r.sems[b.sem].value - 1, r.sems[b.sem].waiting - {t})] else r.sems)
    && (b.OnCondition? ==>
          b.cond in r.conds && b.cond in r'.conds && LeftCondition(r.conds[b.cond], r'.conds[b.cond], t))
  }

  lemma LookFulfils(w: World, t: ThreadId, now: Time)
    requires t < |w.threads| && TryWake(w, t, now).1 == Wake
    requires var b := w.threads[t].block; b.OnCondition? && b.cond in w.res.conds ==> NoDup(Queue(w.res.conds[b.cond]))
    ensures Fulfilled(w, t, TryWake(w, t, now).0)
  {
    var b := w.threads[t].block;
    hide LeftCondition, LookCondition, LookMutex, NoDup;
    if b.OnCondition? {
      ConditionFulfils(w.res, t, b.cond, b.deadline, now);
      hide LookSemaphore, LookJoin, LookFile;
    } else if b.OnMutex? {
      MutexFulfils(w.res, t, b.mutex);
      hide LookSemaphore, LookJoin, LookFile;
    }
  }

  lemma MutexFulfils(r: Resources, t: ThreadId, m: nat)
    requires LookMutex(r, t, m).verdict == Wake
    ensures var k := LookMutex(r, t, m);
      k.block == NotBlocked && k.res.mem == r.mem && k.res.files == r.files && k.res.sems == r.sems && k.res.conds == r.conds
  {}

  lemma ConditionFulfils(r: Resources, t: ThreadId, c: Pointer, deadline: Option<Time>, now: Time)
    requires LookCondition(r, t, c, deadline, now).verdict == Wake && (c in r.conds ==> NoDup(Queue(r.conds[c])))
    ensures var k := LookCondition(r, t, c, deadline, now);
      && k.block == NotBlocked && k.res.mem == r.mem && k.res.files == r.files && k.res.sems == r.sems
      && c in r.conds && c in k.res.conds && LeftCondition(r.conds[c], k.res.conds[c], t)
  {
    hide TakenOut, Without, NoDup;
    WithoutBoth(r.conds[c], t);
  }

  lemma WithoutBoth(x: Condition, t: ThreadId)
    requires NoDup(Queue(x))
    ensures TakenOut(x.waking, Without(x.waking, t), t) && TakenOut(x.waiting, Without(x.waiting, t), t)
  {
    hide TakenOut, Without;
    assert forall i | 0 <= i < |x.waking| :: x.waking[i] == Queue(x)[i];
    assert forall i | 0 <= i < |x.waiting| :: x.waiting[i] == Queue(x)[|x.waking| + i];
    WithoutTakesOut(x.waking, t);
    WithoutTakesOut(x.waiting, t);
  }

  lemma FulfilledBefore(w: World, at: World, t: ThreadId, w': World)
    requires t < |w.threads| && SameResults(w, at) && SameLocks(w.res, at.res) && at.threads[t] == w.threads[t]
    requires Fulfilled(at, t, w')
    requires var b := w.threads[t].block; b.OnCondition? ==> b.cond in w.res.conds && Free(w.res, w.res.conds[b.cond].mutex)
    ensures Fulfilled(w, t, w')
  {}

  /** The chosen thread gets what it waited for, out of the world before the decision. */
  lemma ChosenIsFulfilled(w: World, now: Time)
    requires WorldOk(w) && w.deciding && Pass(w, 0, now, None).1.Chosen?
    ensures var (w', d) := Pass(w, 0, now, None); d.thread < |w.threads| && Fulfilled(w, d.thread, w')
  {
    DecisionFindsTheDue(w, now);
    var (w', d) := Pass(w, 0, now, None);
    var at := ChoiceComesFromLook(w, 0, now, None);
    assert FirstDue(w, d.thread, now) && Due(w, d.thread, now);
    var b := w.threads[d.thread].block;
    if b.OnCondition? { assert ConditionOk(w, b.cond); }
    LookFulfils(at, d.thread, now);
    hide WorldOk, Pass, TryWake, Fulfilled, Place;
    FulfilledBefore(w, at, d.thread, w');
  }

  // ---- Locking ----

  predicate PhantomsCounted(x: Mutex) { forall t | t in x.phantom :: x.phantom[t] > 0 }

  /** Locking takes a free mutex once, blocks on another thread's, and does neither with the thread's
      own; a mutex that another thread holds stays as it is but for the number of waiters. */
  lemma LockOutcome(w: World, m: nat)
    requires Enabled(w, LockMutex(m))
    ensures var x, w' := w.res.mutexes[m], Step(w, LockMutex(m));
      m in w'.res.mutexes && var y := w'.res.mutexes[m];
      && (x.owner.None? ==> w'.threads == w.threads && !w'.deciding && y == x.(owner := Some(w.current), depth := 1))
      && (x.owner.Some? && x.owner.value != w.current ==>
            && y == x.(waiters := x.waiters + 1) && w'.deciding
            && w'.threads == w.threads[w.current := w.threads[w.current].(block := OnMutex(m))])
      && (x.owner == Some(w.current) ==> w'.threads == w.threads && !w'.deciding && y.owner == x.owner)
  {}

  /** Unlocking undoes locking, for whoever may lock at once: not for an error-checking mutex that is
      the thread's own already, nor when a self-lock is left over from before the mutex was free. */
  lemma UnlockUndoesLock(x: Mutex, t: ThreadId)
    requires MutexOk(x) && PhantomsCounted(x) && (x.owner.None? || x.owner.value == t)
    ensures Unlocked(Locked(x, t), t) == (x, true) <==> if x.owner.None? then t !in x.phantom else x.kind != ErrorCheck
  {
    if t in x.phantom {
      assert x.phantom[t := x.phantom[t] + 1][t := x.phantom[t]] == x.phantom;
    } else {
      assert x.phantom[t := 1] - {t} == x.phantom;
    }
  }

  /** Unlocking by a thread that does not hold the mutex does nothing and fails, unless it is a normal
      mutex that is locked, which anyone releases; the owner's last unlock frees it. */
  lemma UnlockOutcome(x: Mutex, t: ThreadId)
    requires MutexOk(x) && t !in x.phantom
    ensures var (y, ok) := Unlocked(x, t);
      && (ok <==> x.owner.Some? && (x.owner.value == t || x.kind == Normal))
      && (!ok ==> y == x)
      && (ok ==> y == if x.depth == 1 then x.(owner := None, depth := 0) else x.(depth := x.depth - 1))
  {}

  /** Locking a file takes it if it is free or the thread's own, once more, and else blocks on it. */
  lemma LockFileOutcome(w: World, f: Pointer)
    requires RefsOk(w) && Enabled(w, LockStream(f))
    ensures var x, w' := w.res.files[f], Step(w, LockStream(f));
      if x.depth == 0 || x.owner == Some(w.current) then
        w'.threads == w.threads && !w'.deciding && FileHeld(w', f, w.current, x.depth + 1)
      else
        && w'.res == w.res && w'.deciding
        && w'.threads == w.threads[w.current := w.threads[w.current].(block := OnFile(f))]
  {
    assert FileOk(w.res.files[f]);
  }

  /** Waiting for a condition fails, and does nothing, exactly if unlocking the mutex does; else the
      thread is the last to arrive at the condition, and the mutex is unlocked once. */
  lemma WaitOutcome(w: World, c: Pointer, m: nat, deadline: Option<Time>)
    requires Enabled(w, WaitCondition(c, m, deadline))
    ensures var w' := Step(w, WaitCondition(c, m, deadline));
      var (x, ok) := Unlocked(w.res.mutexes[m], w.current);
      if !ok then w' == w
      else
        && w'.deciding && |w'.threads| == |w.threads|
        && w'.threads[w.current].block == OnCondition(c, deadline) && w'.threads[w.current].inWait == Some(c)
        && w'.res.mutexes == w.res.mutexes[m := x] && c in w'.res.conds && w'.res.conds[c].mutex == Some(m)
        && Queue(w'.res.conds[c]) == Queue(w.res.conds[c]) + [w.current]
        && w'.res.conds[c].waking == w.res.conds[c].waking
  {
    hide Unlocked;
  }

  /** A signal makes the first waiter the last of the signalled; a broadcast signals all; nobody's
      place in the order of arrival changes, and nobody runs because of it. */
  lemma SignalOutcome(w: World, c: Pointer)
    requires Enabled(w, SignalCondition(c)) && Enabled(w, BroadcastCondition(c))
    ensures var x, w1, w2 := w.res.conds[c], Step(w, SignalCondition(c)), Step(w, BroadcastCondition(c));
      && w1.threads == w2.threads == w.threads && c in w1.res.conds && c in w2.res.conds
      && Queue(w1.res.conds[c]) == Queue(w2.res.conds[c]) == Queue(x)
      && |w1.res.conds[c].waking| == |x.waking| + (if x.waiting == [] then 0 else 1)
      && w2.res.conds[c].waiting == []
  {
    hide CondSignal, CondBroadcast, Queue;
    Requeued(w, c);
  }

  lemma Requeued(w: World, c: Pointer)
    requires c in w.res.conds
    ensures var x, w1, w2 := w.res.conds[c], CondSignal(w, c), CondBroadcast(w, c);
      && w1.threads == w2.threads == w.threads && c in w1.res.conds && c in w2.res.conds
      && Queue(w1.res.conds[c]) == Queue(w2.res.conds[c]) == Queue(x)
      && |w1.res.conds[c].waking| == |x.waking| + (if x.waiting == [] then 0 else 1)
      && w2.res.conds[c].waiting == []
  {
    var x := w.res.conds[c];
    hide Queue;
    QueueOf(x);
  }

  lemma QueueOf(x: Condition)
    ensures Queue(x.(waiting := [], waking := x.waking + x.waiting)) == Queue(x)
    ensures x.waiting != [] ==> Queue(x.(waiting := x.waiting[1..], waking := x.waking + [x.waiting[0]])) == Queue(x)
  {
    if x.waiting != [] { assert x.waiting == [x.waiting[0]] + x.waiting[1..]; }
  }

  // ---- Suspensions over runs ----

  /** Suspended n times, and waiting for b besides. */
  predicate SuspendedBy(w: World, t: ThreadId, n: int, b: Block) {
    t < |w.threads| && w.threads[t].block.Suspended? && w.threads[t].block.count == n && w.threads[t].block.inner == b
  }

  function SuspensionChange(op: Op, t: ThreadId): int {
    if op == SuspendThread(t) then 1 else if op == ResumeThread(t) then -1 else 0
  }

  lemma {:induction false} PassKeepsSuspended(w: World, i: nat, now: Time, next: Option<Time>, t: ThreadId)
    requires w.current < |w.threads| && i <= |w.threads| && t < |w.threads| && w.threads[t].block.Suspended?
    requires w.threads[t].block.count > 0
    ensures Pass(w, i, now, next).0.threads[t] == w.threads[t] && Pass(w, i, now, next).1 != Chosen(t)
    decreases |w.threads| - i
  {
    if i < |w.threads| {
      var u := Candidate(w, i);
      var (w1, v) := TryWake(w, u, now);
      assert w1.threads[t] == w.threads[t] && (u == t ==> v != Wake);
      hide TryWake;
      if v.Skip? { PassKeepsSuspended(w1, i + 1, now, Sooner(next, v.next), t); }
    }
  }

  lemma SuspendedThroughDecision(w: World, now: Time, t: ThreadId, n: int, b: Block)
    requires WorldOk(w) && w.deciding && SuspendedBy(w, t, n, b)
    ensures n > 0 && SuspendedBy(DecideStep(w, now), t, n, b)
    ensures DecideStep(w, now).current == t ==> DecideStep(w, now).deciding
  {
    PassContexts(w, 0, now, None);
    PassKeepsSuspended(w, 0, now, None, t);
    DecideWaits(w, now);
    DecideContexts(w, now);
    hide ContextsOk, Pass;
  }

  lemma SuspendedThroughStep(w: World, op: Op, t: ThreadId, n: int, b: Block)
    requires WorldOk(w) && Enabled(w, op) && SuspendedBy(w, t, n, b)
    ensures n > 0 && t < |Step(w, op).threads| && (Step(w, op).current == t ==> Step(w, op).deciding)
    ensures if n + SuspensionChange(op, t) > 0 then SuspendedBy(Step(w, op), t, n + SuspensionChange(op, t), b)
            else Step(w, op).threads[t].block == b && !b.Suspended?
  {
    if op.Decide? {
      SuspendedThroughDecision(w, op.now, t, n, b);
    } else {
      assert t != w.current && w.threads[t].block.count > 0 && !w.threads[t].block.inner.Suspended?;
      StepKeepsCurrent(w, op);
      if IsLocal(op) {
        StepIsLocal(w, op);
        hide WorldOk, Step;
      } else {
        hide WorldOk;
        SuspensionChanges(w, op, t);
        hide Step;
      }
    }
  }

  lemma SuspensionChanges(w: World, op: Op, t: ThreadId)
    requires Enabled(w, op) && !op.Decide? && !IsLocal(op) && t < |w.threads| && t != w.current
    requires w.threads[t].block.Suspended? && w.threads[t].block.count > 0
    ensures var ts, b := Step(w, op).threads, w.threads[t].block;
      var n := b.count + SuspensionChange(op, t);
      t < |ts| && ts[t].block == if n > 0 then Suspended(n, b.inner) else b.inner
  {
    match op {
      case WaitSemaphore(s, block) => hide Step; WaitShape(w, s, block);
      case SuspendThread(u) =>
      case ResumeThread(u) =>
      case SpawnThread(start, stack) =>
    }
  }

  lemma WaitShape(w: World, s: Pointer, block: bool)
    requires Enabled(w, WaitSemaphore(s, block))
    ensures var ts := Step(w, WaitSemaphore(s, block)).threads;
      |ts| == |w.threads| && forall t | 0 <= t < |ts| && t != w.current :: ts[t] == w.threads[t]
  {
    var b := PlainShape(w, WaitSemaphore(s, block));
    hide Step;
  }

  lemma StepKeepsCurrent(w: World, op: Op)
    requires Enabled(w, op) && !op.Decide?
    ensures Step(w, op).current == w.current
  {
    hide Unlocked;
    if IsResourceOp(op) {
      var b := PlainShape(w, op);
      hide Step;
    }
  }

  /** The suspensions and resumptions of the thread so far leave it suspended. */
  predicate NotYetResumed(ops: seq<Op>, t: ThreadId, n: int) {
    n > 0 && (ops == [] || NotYetResumed(ops[1..], t, n + SuspensionChange(ops[0], t)))
  }

  function SuspensionsAfter(ops: seq<Op>, t: ThreadId, n: int): int {
    if ops == [] then n else SuspensionsAfter(ops[1..], t, n + SuspensionChange(ops[0], t))
  }

  /** Suspended, and not running. */
  predicate IsSuspended(w: World, t: ThreadId) {
    t < |w.threads| && w.threads[t].block.Suspended? && (w.current == t ==> w.deciding)
  }

  /** From here to the end of the run. */
  predicate SuspendedThroughout(w: World, ops: seq<Op>, t: ThreadId)
    requires RunOk(w, ops)
    decreases |ops|
  {
    IsSuspended(w, t) && (ops == [] || SuspendedThroughout(Step(w, ops[0]), ops[1..], t))
  }

  /** Over any run, a suspended thread stays so, does not run and keeps waiting for what it waited for,
      exactly until it has been resumed as often as it was suspended. */
  lemma {:induction false} SuspendedUntilResumed(w: World, ops: seq<Op>, t: ThreadId, n: int, b: Block)
    requires WorldOk(w) && RunOk(w, ops) && SuspendedBy(w, t, n, b)
    ensures SuspendedThroughout(w, ops, t) <==> NotYetResumed(ops, t, n)
    ensures NotYetResumed(ops, t, n) ==> SuspendedBy(Run(w, ops), t, SuspensionsAfter(ops, t, n), b)
    decreases |ops|
  {
    SuspendedDoesNotRun(w, t, n, b);
    hide WorldOk, Step, SuspensionChange, SuspendedBy, IsSuspended;
    if ops != [] {
      SuspensionStep(w, ops[0], t, n, b);
      StepKeeps(w, ops[0]);
      var k := n + SuspensionChange(ops[0], t);
      if k > 0 { SuspendedUntilResumed(Step(w, ops[0]), ops[1..], t, k, b); }
    }
  }

  lemma SuspendedDoesNotRun(w: World, t: ThreadId, n: int, b: Block)
    requires WorldOk(w) && SuspendedBy(w, t, n, b)
    ensures n > 0 && IsSuspended(w, t)
  {}

  lemma SuspensionStep(w: World, op: Op, t: ThreadId, n: int, b: Block)
    requires WorldOk(w) && Enabled(w, op) && SuspendedBy(w, t, n, b)
    ensures var k := n + SuspensionChange(op, t);
      if k > 0 then SuspendedBy(Step(w, op), t, k, b) else !IsSuspended(Step(w, op), t)
  {
    SuspendedThroughStep(w, op, t, n, b);
    hide WorldOk, Step;
  }

  // ---- File locks over runs ----

  predicate FileHeld(w: World, f: Pointer, t: ThreadId, n: int) {
    f in w.res.files && w.res.files[f].owner == Some(t) && w.res.files[f].depth == n
  }

  function FileChange(w: World, op: Op, f: Pointer, t: ThreadId): int {
    if w.current != t then 0 else if op == LockStream(f) then 1 else if op == UnlockStream(f) then -1 else 0
  }

  lemma FileThroughDecision(w: World, now: Time, f: Pointer, t: ThreadId, n: int)
    requires WorldOk(w) && w.deciding && FileHeld(w, f, t, n) && n > 0
    ensures FileHeld(DecideStep(w, now), f, t, n)
  {
    DecisionFindsTheDue(w, now);
    var (w', d) := Pass(w, 0, now, None);
    DecideKeepsFiles(w, now);
    hide WorldOk, Pass, DecideStep;
    if d.Chosen? {
      ChosenIsFulfilled(w, now);
      assert FirstDue(w, d.thread, now);
    } else {
      FruitlessPassKeepsLocks(w, 0, now, None);
    }
  }

  lemma DecideKeepsFiles(w: World, now: Time)
    requires w.current < |w.threads|
    ensures var w1 := Pass(w, 0, now, None).0; DecideStep(w, now).res.files == w1.res.files && DecideStep(w, now).res.mem == w1.res.mem
  {
    var (w1, d) := Pass(w, 0, now, None);
    hide Pass, Continue;
    ContinueKeepsFiles(w1);
    if d.Chosen? && d.thread < |w1.threads| && d.thread != w1.current && w1.threads[d.thread].guest.Some? {
      ContinueKeepsFiles(SwitchTo(w1, d.thread));
    }
  }

  lemma ContinueKeepsFiles(w: World)
    requires w.current < |w.threads|
    ensures Continue(w).res.files == w.res.files && Continue(w).res.mem == w.res.mem
  {}

  lemma FileThroughStep(w: World, op: Op, f: Pointer, t: ThreadId, n: int)
    requires WorldOk(w) && Enabled(w, op) && FileHeld(w, f, t, n)
    ensures n > 0 && f in Step(w, op).res.files
    ensures if n + FileChange(w, op, f, t) > 0 then FileHeld(Step(w, op), f, t, n + FileChange(w, op, f, t))
            else Step(w, op).res.files[f].owner == None
  {
    assert FileOk(w.res.files[f]);
    hide WorldOk;
    if op.Decide? {
      FileThroughDecision(w, op.now, f, t, n);
    } else if op.LockStream? || op.UnlockStream? || op.NewStream? {
      FileStep(w, op, f);
      hide Step;
    } else {
      OtherStepsKeepFiles(w, op);
      hide Step;
    }
  }

  lemma FileStep(w: World, op: Op, f: Pointer)
    requires Enabled(w, op) && (op.LockStream? || op.UnlockStream? || op.NewStream?)
    requires f in w.res.files && w.res.files[f].owner.Some? && w.res.files[f].depth > 0
    ensures f in Step(w, op).res.files
    ensures var x := w.res.files[f];
      var n := x.depth + FileChange(w, op, f, x.owner.value);
      Step(w, op).res.files[f] == if n > 0 then x.(depth := n) else FileLock(None, 0)
  {
    hide YieldOn;
    if op.LockStream? { YieldResources(w, w.res, OnFile(op.f)); }
  }

  lemma OtherStepsKeepFiles(w: World, op: Op)
    requires Enabled(w, op) && !op.Decide? && !op.LockStream? && !op.UnlockStream? && !op.NewStream?
    ensures Step(w, op).res.files == w.res.files
  {
    hide Locked, Unlocked, HeldByOther;
  }

  function FileCount(w: World, ops: seq<Op>, f: Pointer, t: ThreadId, n: int): int
    requires RunOk(w, ops)
    decreases |ops|
  {
    if ops == [] then n else FileCount(Step(w, ops[0]), ops[1..], f, t, n + FileChange(w, ops[0], f, t))
  }

  predicate FileNotYetReleased(w: World, ops: seq<Op>, f: Pointer, t: ThreadId, n: int)
    requires RunOk(w, ops)
    decreases |ops|
  {
    n > 0 && (ops == [] || FileNotYetReleased(Step(w, ops[0]), ops[1..], f, t, n + FileChange(w, ops[0], f, t)))
  }

  predicate FileOwnedThroughout(w: World, ops: seq<Op>, f: Pointer, t: ThreadId)
    requires RunOk(w, ops)
    decreases |ops|
  {
    && f in w.res.files && w.res.files[f].owner == Some(t)
    && (ops == [] || FileOwnedThroughout(Step(w, ops[0]), ops[1..], f, t))
  }

  /** Over any run, a file stays locked by its owner exactly until the owner has unlocked it as often as
      it locked it, and its depth is that count. */
  lemma {:induction false} FileHeldUntilReleased(w: World, ops: seq<Op>, f: Pointer, t: ThreadId, n: int)
    requires WorldOk(w) && RunOk(w, ops) && FileHeld(w, f, t, n)
    ensures FileOwnedThroughout(w, ops, f, t) <==> FileNotYetReleased(w, ops, f, t, n)
    ensures FileNotYetReleased(w, ops, f, t, n) ==> FileHeld(Run(w, ops), f, t, FileCount(w, ops, f, t, n))
    decreases |ops|
  {
    FileDepthIsPositive(w, f, t, n);
    hide WorldOk, Step, FileChange;
    if ops != [] {
      FileThroughStep(w, ops[0], f, t, n);
      StepKeeps(w, ops[0]);
      var k := n + FileChange(w, ops[0], f, t);
      if k > 0 { FileHeldUntilReleased(Step(w, ops[0]), ops[1..], f, t, k); }
    }
  }

  lemma FileDepthIsPositive(w: World, f: Pointer, t: ThreadId, n: int)
    requires WorldOk(w) && FileHeld(w, f, t, n)
    ensures n > 0
  {
    assert FileOk(w.res.files[f]);
  }

  // ---- Finished threads ----

  predicate Finished(w: World, t: ThreadId, result: Option<int>) {
    t < |w.threads| && !w.threads[t].active && w.threads[t].returnValue == result
  }

  lemma {:induction false} PassKeepsResults(w: World, i: nat, now: Time, next: Option<Time>)
    requires w.current < |w.threads| && i <= |w.threads|
    ensures SameResults(w, Pass(w, i, now, next).0)
    decreases |w.threads| - i
  {
    if i < |w.threads| {
      var (w1, v) := TryWake(w, Candidate(w, i), now);
      assert SameResults(w, w1);
      hide TryWake;
      if v.Skip? { PassKeepsResults(w1, i + 1, now, Sooner(next, v.next)); }
    }
  }

  lemma FinishedThroughStep(w: World, op: Op, t: ThreadId, result: Option<int>)
    requires WorldOk(w) && Enabled(w, op) && Finished(w, t, result)
    ensures Finished(Step(w, op), t, result)
  {
    assert t == w.current ==> op.Decide?;
    if op.Decide? {
      PassKeepsResults(w, 0, op.now, None);
      DecideKeepsResults(w, op.now);
      hide WorldOk, Pass, DecideStep;
    } else {
      hide WorldOk;
      StepKeepsFinished(w, op, t);
    }
  }

  lemma DecideKeepsResults(w: World, now: Time)
    requires w.current < |w.threads|
    ensures SameResults(Pass(w, 0, now, None).0, DecideStep(w, now))
  {
    hide Pass;
  }

  lemma StepKeepsFinished(w: World, op: Op, t: ThreadId)
    requires Enabled(w, op) && !op.Decide? && t < |w.threads| && t != w.current
    ensures var ts := Step(w, op).threads;
      t < |ts| && ts[t].active == w.threads[t].active && ts[t].returnValue == w.threads[t].returnValue
  {
    hide Unlocked;
    if IsResourceOp(op) {
      var b := PlainShape(w, op);
      hide Step;
    }
  }

  lemma {:induction false} FinishedStays(w: World, ops: seq<Op>, t: ThreadId, result: Option<int>)
    requires WorldOk(w) && RunOk(w, ops) && Finished(w, t, result)
    ensures Finished(Run(w, ops), t, result)
    decreases |ops|
  {
    hide WorldOk, Step, Finished;
    if ops != [] {
      FinishedThroughStep(w, ops[0], t, result);
      StepKeeps(w, ops[0]);
      FinishedStays(Step(w, ops[0]), ops[1..], t, result);
    }
  }

  /** However long after a thread has finished, a thread that joins it and runs again finds the value it
      finished with in memory, if it asked for it; and a decision can only choose it after that. */
  lemma JoinDeliversResult(w: World, result: int, ops: seq<Op>, now: Time, u: ThreadId, p: Pointer)
    requires WorldOk(w) && Enabled(w, FinishThread(result)) && RunOk(Step(w, FinishThread(result)), ops)
    requires var w2 := Run(Step(w, FinishThread(result)), ops);
      && w2.deciding && u < |w2.threads| && w2.threads[u].block == Joining(w.current, p)
      && w2.current < |w2.threads| && Pass(w2, 0, now, None).1 == Chosen(u)
    ensures var w2 := Run(Step(w, FinishThread(result)), ops);
      DecideStep(w2, now).res.mem == if p == 0 then w2.res.mem else w2.res.mem[p := result]
  {
    var w1 := Step(w, FinishThread(result));
    StepKeeps(w, FinishThread(result));
    assert Finished(w1, w.current, Some(result));
    RunKeeps(w1, ops);
    FinishedStays(w1, ops, w.current, Some(result));
    hide WorldOk, Step, Pass, DecideStep;
    ChosenIsFulfilled(Run(w1, ops), now);
    DecideKeepsFiles(Run(w1, ops), now);
  }
}
