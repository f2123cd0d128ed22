/** Mutexes, condition queues and file locks: what keeps the scheduler's unwraps and assertions
    from ever failing. */
module WaitQueues {
  import opened Threads
  import opened ThreadInvariants

  // ---- References to mutexes and files ----

  predicate MutexOk(x: Mutex) {
    && (x.owner.None? <==> x.depth == 0)
    && (x.depth > 1 ==> x.kind == Recursive)
    && (x.kind != Normal ==> x.phantom == map[])
  }

  predicate FileOk(x: FileLock) { x.owner.None? <==> x.depth == 0 }

  predicate RefOk(r: Resources, b: Block) {
    && (b.OnMutex? ==> b.mutex in r.mutexes)
    && (b.OnFile? ==> b.file in r.files)
  }

  predicate RefsOk(w: World) {
    && (forall m | m in w.res.mutexes :: MutexOk(w.res.mutexes[m]))
    && (forall f | f in w.res.files :: FileOk(w.res.files[f]))
    && (forall t | 0 <= t < |w.threads| :: RefOk(w.res, Inner(w.threads[t].block)))
  }

  // ---- Condition queues ----

  function Queue(x: Condition): seq<ThreadId> { x.waking + x.waiting }

  predicate NoDup(q: seq<ThreadId>) { forall i, j | 0 <= i < j < |q| :: q[i] != q[j] }

  predicate Queued(w: World, c: Pointer, t: ThreadId) {
    && t < |w.threads| && Inner(w.threads[t].block).OnCondition? && Inner(w.threads[t].block).cond == c
    && w.threads[t].inWait == Some(c)
  }

  predicate TimedOut(w: World, c: Pointer, t: ThreadId) {
    t < |w.threads| && w.threads[t].inWait == Some(c) && !Inner(w.threads[t].block).OnCondition?
  }

  predicate ConditionOk(w: World, c: Pointer)
    requires c in w.res.conds
  {
    var x := w.res.conds[c];
    && NoDup(Queue(x))
    && (forall t | t in Queue(x) :: Queued(w, c, t))
    && (Queue(x) != [] ==> x.mutex.Some? && x.mutex.value in w.res.mutexes)
    && (forall t | t in x.timedOut :: TimedOut(w, c, t))
  }

  predicate WaiterQueued(w: World, t: ThreadId)
    requires t < |w.threads|
  {
    var b := Inner(w.threads[t].block);
    && (b.OnCondition? ==> b.cond in w.res.conds && t in Queue(w.res.conds[b.cond]) && w.threads[t].inWait == Some(b.cond))
    && (w.threads[t].inWait.Some? ==> w.threads[t].inWait.value in w.res.conds)
  }

  /** Each condition's queues hold exactly the threads blocked on it, once; its mutex exists while
      anybody waits; timeouts are remembered only until the thread has returned from its wait. */
  predicate ConditionsOk(w: World) {
    && (forall c | c in w.res.conds :: ConditionOk(w, c))
    && (forall t | 0 <= t < |w.threads| :: WaiterQueued(w, t))
  }

  predicate NotInWait(w: World) { w.current < |w.threads| && (!w.deciding ==> w.threads[w.current].inWait.None?) }

  /** With these invariants no look at a candidate can panic. */
  lemma LookNeverPanics(w: World, t: ThreadId, now: Time)
    requires t < |w.threads| && SuspensionsOk(w) && RefsOk(w) && ConditionsOk(w)
    ensures LookAt(w.res, w.threads, t, now).verdict != Panic
  {
    var b := w.threads[t].block;
    assert RefOk(w.res, Inner(b)) && WaiterQueued(w, t);
    if b.OnCondition? {
      assert ConditionOk(w, b.cond);
      assert t in w.res.conds[b.cond].timedOut ==> TimedOut(w, b.cond, t);
    }
    if b.OnFile? { assert FileOk(w.res.files[b.file]); }
  }

  lemma LookRefs(w: World, t: ThreadId, now: Time)
    requires t < |w.threads| && SuspensionsOk(w) && RefsOk(w) && ConditionsOk(w) && w.threads[t].active
    ensures RefsOk(TryWake(w, t, now).0)
  {
    LookGrows(w, t, now);
    LookRef(w, t, now);
    hide LookAt, MutexOk, FileOk, ConditionsOk, SuspensionsOk;
    var w' := TryWake(w, t, now).0;
    forall u | 0 <= u < |w'.threads| ensures RefOk(w'.res, Inner(w'.threads[u].block)) {
      assert RefOk(w.res, Inner(w.threads[u].block));
    }
  }

  lemma LookRef(w: World, t: ThreadId, now: Time)
    requires t < |w.threads| && RefsOk(w) && ConditionsOk(w)
    ensures RefOk(w.res, Inner(LookAt(w.res, w.threads, t, now).block))
  {
    hide Relock, Without, MutexOk, FileOk, NoDup;
    var b := w.threads[t].block;
    assert RefOk(w.res, Inner(b)) && WaiterQueued(w, t);
    if b.OnCondition? { assert ConditionOk(w, b.cond); }
  }

  /** Looking creates or destroys no mutex and no file, and leaves all of them well-formed. */
  lemma LookGrows(w: World, t: ThreadId, now: Time)
    requires t < |w.threads| && RefsOk(w)
    ensures var r := LookAt(w.res, w.threads, t, now).res;
      SameObjects(w.res, r)
  {
    hide LookCondition, LookFile, Relock, MutexOk, FileOk;
    match w.threads[t].block
    case OnMutex(m) => RelockGrows(w.res, t, m);
    case OnCondition(c, deadline) => LookConditionGrows(w.res, t, c, deadline, now);
    case OnFile(f) => LookFileGrows(w.res, t, f);
    case _ =>
  }

  /** The same objects, and all well-formed. */
  predicate SameObjects(r: Resources, r': Resources) {
    && r'.mutexes.Keys == r.mutexes.Keys && r'.files.Keys == r.files.Keys && r'.conds.Keys == r.conds.Keys
    && (forall m | m in r'.mutexes :: MutexOk(r'.mutexes[m]))
    && (forall f | f in r'.files :: FileOk(r'.files[f]))
  }

  predicate ObjectsOk(r: Resources) {
    && (forall m | m in r.mutexes :: MutexOk(r.mutexes[m]))
    && (forall f | f in r.files :: FileOk(r.files[f]))
  }

  lemma RelockGrows(r: Resources, t: ThreadId, m: nat)
    requires ObjectsOk(r)
    ensures m in r.mutexes ==> SameObjects(r, Relock(r, t, m))
  {
    if m in r.mutexes {
      assert MutexOk(r.mutexes[m]);
      assert Relock(r, t, m).mutexes.Keys == r.mutexes.Keys;
    }
  }

  lemma LookConditionGrows(r: Resources, t: ThreadId, c: Pointer, deadline: Option<Time>, now: Time)
    requires ObjectsOk(r)
    ensures SameObjects(r, LookCondition(r, t, c, deadline, now).res)
  {
    hide MutexOk, FileOk, Relock, Without;
    if c in r.conds && r.conds[c].mutex.Some? {
      var x := r.conds[c];
      ConditionGrows(r, c, if x.waking != [] then x.(waking := x.waking[1..]) else x, t, x.mutex.value);
      ConditionGrows(r, c, x.(timedOut := x.timedOut + {t}, waking := Without(x.waking, t), waiting := Without(x.waiting, t)), t, x.mutex.value);
    }
  }

  lemma ConditionGrows(r: Resources, c: Pointer, x: Condition, t: ThreadId, m: nat)
    requires ObjectsOk(r) && c in r.conds
    ensures var r1 := r.(conds := r.conds[c := x]);
      SameObjects(r, r1) && (m in r.mutexes ==> SameObjects(r, Relock(r1, t, m)))
  {
    hide MutexOk, FileOk, Relock;
    var r1 := r.(conds := r.conds[c := x]);
    assert r1.conds.Keys == r.conds.Keys;
    RelockGrows(r1, t, m);
  }

  lemma LookFileGrows(r: Resources, t: ThreadId, f: Pointer)
    requires ObjectsOk(r)
    ensures SameObjects(r, LookFile(r, t, f).res)
  {
    hide MutexOk;
    if f in r.files { assert r.files[f := FileLock(Some(t), 1)].Keys == r.files.Keys; }
  }

  lemma WithoutMembers(q: seq<ThreadId>, t: ThreadId)
    ensures forall u :: u in Without(q, t) <==> u in q && u != t
  {
    if q != [] {
      WithoutMembers(q[1..], t);
      assert q == [q[0]] + q[1..];
    }
  }

  lemma {:induction false} WithoutConcat(p: seq<ThreadId>, q: seq<ThreadId>, t: ThreadId)
    ensures Without(p + q, t) == Without(p, t) + Without(q, t)
  {
    if p == [] {
      assert p + q == q;
    } else {
      assert (p + q)[1..] == p[1..] + q;
      WithoutConcat(p[1..], q, t);
    }
  }

  lemma {:induction false} WithoutNoDup(q: seq<ThreadId>, t: ThreadId)
    requires NoDup(q)
    ensures NoDup(Without(q, t))
  {
    if q != [] {
      HeadNotInTail(q);
      WithoutNoDup(q[1..], t);
      WithoutMembers(q[1..], t);
    }
  }

  lemma HeadNotInTail(q: seq<ThreadId>)
    requires q != [] && NoDup(q)
    ensures q[0] !in q[1..] && NoDup(q[1..])
  {}

  /** A condition none of whose queued or timed-out threads is touched stays in order. */
  lemma ConditionFrame(w: World, w': World, c: Pointer, t: ThreadId)
    requires c in w.res.conds && ConditionOk(w, c) && c in w'.res.conds && w'.res.conds[c] == w.res.conds[c]
    requires |w'.threads| >= |w.threads| && t !in Queue(w.res.conds[c]) && t !in w.res.conds[c].timedOut
    requires forall u | 0 <= u < |w.threads| && u != t ::
      Inner(w'.threads[u].block) == Inner(w.threads[u].block) && w'.threads[u].inWait == w.threads[u].inWait
    requires forall m | m in w.res.mutexes :: m in w'.res.mutexes
    ensures ConditionOk(w', c)
  {
    var x := w.res.conds[c];
    forall u | u in Queue(x) ensures Queued(w', c, u) { assert Queued(w, c, u); }
    forall u | u in x.timedOut ensures TimedOut(w', c, u) { assert TimedOut(w, c, u); }
  }

  /** A thread queued on one condition is in no other one's queue or timeout set. */
  lemma QueuedOnce(w: World, t: ThreadId, c: Pointer, d: Pointer)
    requires t < |w.threads| && ConditionsOk(w) && c in w.res.conds && d in w.res.conds && c != d && w.threads[t].inWait == Some(c)
    ensures t !in Queue(w.res.conds[d]) && t !in w.res.conds[d].timedOut
  {
    assert ConditionOk(w, d);
    assert t in Queue(w.res.conds[d]) ==> Queued(w, d, t);
    assert t in w.res.conds[d].timedOut ==> TimedOut(w, d, t);
  }

  /** Taking a queued thread out of its condition's queues, timed out or not, and unblocking it or
      sending it to the mutex keeps every queue in order. */
  lemma DequeueKeeps(w: World, t: ThreadId, c: Pointer, x': Condition, r: Resources, b: Block)
    requires t < |w.threads| && ConditionsOk(w) && c in w.res.conds
    requires w.threads[t].block.OnCondition? && w.threads[t].block.cond == c && !Inner(b).OnCondition?
    requires r.conds == w.res.conds[c := x'] && r.mutexes.Keys == w.res.mutexes.Keys
    requires x'.mutex == w.res.conds[c].mutex && NoDup(Queue(x'))
    requires forall u :: u in Queue(x') <==> u in Queue(w.res.conds[c]) && u != t
    requires x'.timedOut == w.res.conds[c].timedOut || x'.timedOut == w.res.conds[c].timedOut + {t}
    ensures ConditionsOk(SetBlock(w, t, b).(res := r))
  {
    var w' := SetBlock(w, t, b).(res := r);
    assert WaiterQueued(w, t) && ConditionOk(w, c);
    forall d | d in w'.res.conds ensures ConditionOk(w', d) {
      if d != c {
        QueuedOnce(w, t, c, d);
        ConditionFrame(w, w', d, t);
      } else {
        forall u | u in Queue(x') ensures Queued(w', c, u) { assert Queued(w, c, u); }
        forall u | u in x'.timedOut ensures TimedOut(w', c, u) { assert u == t || TimedOut(w, c, u); }
      }
    }
    forall u | 0 <= u < |w'.threads| ensures WaiterQueued(w', u) { assert WaiterQueued(w, u); }
  }

  lemma LookConditionKeeps(w: World, t: ThreadId, now: Time)
    requires t < |w.threads| && RefsOk(w) && ConditionsOk(w) && w.threads[t].block.OnCondition? && w.threads[t].active
    ensures ConditionsOk(TryWake(w, t, now).0)
  {
    var b := w.threads[t].block;
    var c := b.cond;
    assert WaiterQueued(w, t) && ConditionOk(w, c);
    var x := w.res.conds[c];
    var m := x.mutex.value;
    var k := LookAt(w.res, w.threads, t, now);
    if x.waking != [] && x.waking[0] == t && !IsLocked(w.res, m) {
      var x' := x.(waking := x.waking[1..]);
      assert Queue(x) == [t] + Queue(x') && Queue(x)[1..] == Queue(x');
      HeadNotInTail(Queue(x));
      DequeueKeeps(w, t, c, x', k.res, NotBlocked);
    } else if b.deadline.Some? && now >= b.deadline.value {
      assert t in x.timedOut ==> TimedOut(w, c, t);
      var x' := x.(timedOut := x.timedOut + {t}, waking := Without(x.waking, t), waiting := Without(x.waiting, t));
      WithoutMembers(x.waking, t);
      WithoutMembers(x.waiting, t);
      WithoutConcat(x.waking, x.waiting, t);
      WithoutNoDup(Queue(x), t);
      DequeueKeeps(w, t, c, x', k.res, k.block);
    } else {
      assert TryWake(w, t, now).0.threads == w.threads;
    }
  }

  lemma LookOtherKeeps(w: World, t: ThreadId, now: Time)
    requires t < |w.threads| && RefsOk(w) && ConditionsOk(w) && !w.threads[t].block.OnCondition? && w.threads[t].active
    ensures ConditionsOk(TryWake(w, t, now).0)
  {
    var w' := TryWake(w, t, now).0;
    LookGrows(w, t, now);
    assert w'.res.conds == w.res.conds;
    SameQueuesKeep(w, w', t);
  }

  /** Nothing about conditions changes; thread t goes from one other block to another, or stays. */
  lemma SameQueuesKeep(w: World, w': World, t: ThreadId)
    requires ConditionsOk(w) && t < |w.threads| == |w'.threads| && w'.res.conds == w.res.conds
    requires forall m | m in w.res.mutexes :: m in w'.res.mutexes
    requires forall u | 0 <= u < |w.threads| :: w'.threads[u].inWait == w.threads[u].inWait
    requires forall u | 0 <= u < |w.threads| && u != t :: Inner(w'.threads[u].block) == Inner(w.threads[u].block)
    requires Inner(w'.threads[t].block) == Inner(w.threads[t].block)
      || (!Inner(w'.threads[t].block).OnCondition? && !Inner(w.threads[t].block).OnCondition?)
    ensures ConditionsOk(w')
  {
    forall c | c in w'.res.conds ensures ConditionOk(w', c) {
      assert ConditionOk(w, c);
      var x := w.res.conds[c];
      forall u | u in Queue(x) ensures Queued(w', c, u) { assert Queued(w, c, u); }
      forall u | u in x.timedOut ensures TimedOut(w', c, u) { assert TimedOut(w, c, u); }
    }
    forall u | 0 <= u < |w'.threads| ensures WaiterQueued(w', u) { assert WaiterQueued(w, u); }
  }

  lemma {:induction false} PassQueues(w: World, i: nat, now: Time, next: Option<Time>)
    requires w.current < |w.threads| && i <= |w.threads|
    requires SuspensionsOk(w) && SemaphoresOk(w) && RefsOk(w) && ConditionsOk(w)
    ensures RefsOk(Pass(w, i, now, next).0) && ConditionsOk(Pass(w, i, now, next).0)
    ensures !Pass(w, i, now, next).1.Crashed?
    decreases |w.threads| - i
  {
    hide RefsOk, ConditionsOk, SuspensionsOk, SemaphoresOk, LookAt;
    if i < |w.threads| {
      var t := Candidate(w, i);
      LookKeeps(w, t, now);
      var (w1, v) := TryWake(w, t, now);
      hide TryWake;
      if v.Skip? { PassQueues(w1, i + 1, now, Sooner(next, v.next)); }
    }
  }

  lemma LookKeeps(w: World, t: ThreadId, now: Time)
    requires t < |w.threads| && SuspensionsOk(w) && SemaphoresOk(w) && RefsOk(w) && ConditionsOk(w)
    ensures var (w1, v) := TryWake(w, t, now);
      SuspensionsOk(w1) && SemaphoresOk(w1) && RefsOk(w1) && ConditionsOk(w1) && v != Panic
  {
    hide RefsOk, ConditionsOk, SuspensionsOk, SemaphoresOk, LookAt;
    LookNeverPanics(w, t, now);
    TryWakeSemaphores(w, t, now);
    if w.threads[t].active {
      LookRefs(w, t, now);
      if w.threads[t].block.OnCondition? { LookConditionKeeps(w, t, now); } else { LookOtherKeeps(w, t, now); }
    }
  }

  lemma SwitchQueues(w: World, t: ThreadId)
    requires w.current < |w.threads| && t < |w.threads| && t != w.current && w.threads[t].guest.Some?
    requires RefsOk(w) && ConditionsOk(w)
    ensures RefsOk(SwitchTo(w, t)) && ConditionsOk(SwitchTo(w, t))
  {
    var w' := SwitchTo(w, t);
    assert forall u | 0 <= u < |w.threads| :: w'.threads[u].block == w.threads[u].block && w'.threads[u].inWait == w.threads[u].inWait;
    SameQueuesKeep(w, w', t);
    forall u | 0 <= u < |w'.threads| ensures RefOk(w'.res, Inner(w'.threads[u].block)) {
      assert RefOk(w.res, Inner(w.threads[u].block));
    }
  }

  /** Returning from a wait clears the thread's timeout and nothing else. */
  lemma ContinueQueues(w: World)
    requires w.current < |w.threads| && w.threads[w.current].block == NotBlocked && RefsOk(w) && ConditionsOk(w)
    ensures RefsOk(Continue(w)) && ConditionsOk(Continue(w)) && NotInWait(Continue(w))
  {
    var w' := Continue(w);
    var t := w.current;
    assert WaiterQueued(w, t);
    if w.threads[t].inWait.Some? {
      var c := w.threads[t].inWait.value;
      forall d | d in w'.res.conds ensures ConditionOk(w', d) {
        assert ConditionOk(w, d);
        if d != c {
          QueuedOnce(w, t, c, d);
          ConditionFrame(w, w', d, t);
        } else {
          var x := w.res.conds[c];
          forall u | u in Queue(x) ensures Queued(w', c, u) { assert Queued(w, c, u); }
          forall u | u in w'.res.conds[c].timedOut ensures TimedOut(w', c, u) { assert TimedOut(w, c, u); }
        }
      }
      forall u | 0 <= u < |w'.threads| ensures WaiterQueued(w', u) { assert WaiterQueued(w, u); }
    } else {
      SameQueuesKeep(w, w', t);
    }
    forall u | 0 <= u < |w'.threads| ensures RefOk(w'.res, Inner(w'.threads[u].block)) {
      assert RefOk(w.res, Inner(w.threads[u].block));
    }
  }

  lemma DecideQueues(w: World, now: Time)
    requires ContextsOk(w) && w.deciding && SuspensionsOk(w) && SemaphoresOk(w) && RefsOk(w) && ConditionsOk(w)
    ensures RefsOk(DecideStep(w, now)) && ConditionsOk(DecideStep(w, now)) && NotInWait(DecideStep(w, now))
    ensures !Pass(w, 0, now, None).1.Crashed?
  {
    PassQueues(w, 0, now, None);
    PassContexts(w, 0, now, None);
    DecideContexts(w, now);
    var (w1, d) := Pass(w, 0, now, None);
    if d.Chosen? {
      PassChooses(w, 0, now, None);
      if d.thread != w1.current { SwitchQueues(w1, d.thread); }
      ContinueQueues(if d.thread == w1.current then w1 else SwitchTo(w1, d.thread));
    }
  }

  // ---- The other steps ----

  predicate Grows(r: Resources, r': Resources) { r.mutexes.Keys <= r'.mutexes.Keys && r.files.Keys <= r'.files.Keys }

  predicate IsPlain(op: Op) {
    !op.Decide? && !op.WaitCondition? && !op.SignalCondition? && !op.BroadcastCondition? && !op.NewCondition?
    && !op.SpawnThread? && !op.SuspendThread? && !op.ResumeThread?
  }

  /** A step that leaves the condition queues alone and may block the current thread. */
  predicate PlainStep(w: World, w': World)
    requires w.current < |w.threads|
  {
    && |w'.threads| == |w.threads| && w'.res.conds == w.res.conds && Grows(w.res, w'.res) && ObjectsOk(w'.res)
    && (forall t | 0 <= t < |w.threads| :: w'.threads[t].inWait == w.threads[t].inWait)
    && (forall t | 0 <= t < |w.threads| && t != w.current :: w'.threads[t].block == w.threads[t].block)
    && var b := w'.threads[w.current].block; !b.OnCondition? && !b.Suspended? && RefOk(w'.res, b)
  }

  lemma SetMutexIsPlain(w: World, m: nat, x: Mutex)
    requires ContextsOk(w) && !w.deciding && RefsOk(w) && MutexOk(x)
    ensures PlainStep(w, SetMutex(w, m, x))
    ensures PlainStep(w, YieldOn(SetMutex(w, m, x), OnMutex(m)))
  {
    var r := SetMutex(w, m, x).res;
    assert forall n | n in r.mutexes :: MutexOk(r.mutexes[n]);
  }

  lemma LockIsPlain(w: World, m: nat)
    requires ContextsOk(w) && !w.deciding && RefsOk(w) && m in w.res.mutexes
    ensures PlainStep(w, Lock(w, m))
  {
    var x := w.res.mutexes[m];
    assert MutexOk(x) && w.current < |w.threads|;
    LockedOk(x, w.current);
    hide ContextsOk, RefsOk, MutexOk, PlainStep, YieldOn, SetMutex, Locked;
    SetMutexIsPlain(w, m, if HeldByOther(x, w.current) then x.(waiters := x.waiters + 1) else Locked(x, w.current));
  }

  lemma LockedOk(x: Mutex, t: ThreadId)
    requires MutexOk(x)
    ensures MutexOk(Unlocked(x, t).0) && MutexOk(x.(waiters := x.waiters + 1)) && (!HeldByOther(x, t) ==> MutexOk(Locked(x, t)))
  {}

  lemma MutexStepIsPlain(w: World, op: Op)
    requires ContextsOk(w) && RefsOk(w) && Enabled(w, op) && (op.LockMutex? || op.UnlockMutex? || op.NewMutex?)
    ensures PlainStep(w, Step(w, op))
  {
    hide ContextsOk, PlainStep, Lock, Unlocked, SetMutex;
    match op
    case LockMutex(m) => LockIsPlain(w, m);
    case UnlockMutex(m) =>
      assert MutexOk(w.res.mutexes[m]);
      LockedOk(w.res.mutexes[m], w.current);
      SetMutexIsPlain(w, m, Unlocked(w.res.mutexes[m], w.current).0);
    case NewMutex(m, kind) => SetMutexIsPlain(w, m, Mutex(kind, None, 0, 0, map[]));
  }

  lemma FileStepIsPlain(w: World, op: Op)
    requires ContextsOk(w) && RefsOk(w) && Enabled(w, op) && (op.LockStream? || op.UnlockStream? || op.NewStream?)
    ensures PlainStep(w, Step(w, op))
  {
    assert w.current < |w.threads| && !w.deciding;
    hide ContextsOk, RefsOk, PlainStep, LockFile, UnlockFile, SetFile;
    match op {
      case LockStream(f) => LockFileIsPlain(w, f);
      case UnlockStream(f) => UnlockFileIsPlain(w, f);
      case NewStream(f) => SetFileIsPlain(w, f, FileLock(None, 0));
    }
  }

  lemma LockFileIsPlain(w: World, f: Pointer)
    requires ContextsOk(w) && !w.deciding && RefsOk(w) && f in w.res.files
    ensures PlainStep(w, LockFile(w, f))
  {
    assert w.current < |w.threads|;
    hide ContextsOk, RefsOk, PlainStep, SetFile, YieldOn;
    SetFileIsPlain(w, f, FileLock(Some(w.current), w.res.files[f].depth + 1));
    YieldIsPlain(w, OnFile(f));
  }

  lemma UnlockFileIsPlain(w: World, f: Pointer)
    requires ContextsOk(w) && !w.deciding && RefsOk(w) && f in w.res.files && w.res.files[f].depth > 0
    ensures PlainStep(w, UnlockFile(w, f))
  {
    var x := w.res.files[f];
    assert FileOk(x);
    hide ContextsOk, RefsOk, PlainStep, SetFile;
    SetFileIsPlain(w, f, FileLock(if x.depth == 1 then None else x.owner, x.depth - 1));
  }

  lemma SetFileIsPlain(w: World, f: Pointer, x: FileLock)
    requires ContextsOk(w) && !w.deciding && RefsOk(w) && FileOk(x)
    ensures PlainStep(w, w.(res := SetFile(w.res, f, x)))
  {
    var r := SetFile(w.res, f, x);
    assert forall g | g in r.files :: FileOk(r.files[g]);
  }

  lemma YieldIsPlain(w: World, b: Block)
    requires ContextsOk(w) && !w.deciding && RefsOk(w) && RefOk(w.res, b) && !b.OnCondition? && !b.Suspended?
    ensures PlainStep(w, YieldOn(w, b))
  {}

  lemma OtherStepIsPlain(w: World, op: Op)
    requires ContextsOk(w) && RefsOk(w) && Enabled(w, op) && IsPlain(op)
    requires !(op.LockMutex? || op.UnlockMutex? || op.NewMutex? || op.LockStream? || op.UnlockStream? || op.NewStream?)
    ensures PlainStep(w, Step(w, op))
  {
    assert w.current < |w.threads| && !w.deciding;
    hide ContextsOk, RefsOk, PlainStep, YieldOn, RefOk;
    match op {
      case RunGuest(registers) => ThreadIsPlain(w, registers, 0);
      case FinishThread(result) => ThreadIsPlain(w, map[], result);
      case YieldOnly => BlockIsPlain(w, NotBlocked);
      case Sleep(until) => BlockIsPlain(w, Sleeping(until));
      case Join(j, result) => BlockIsPlain(w, Joining(j, result));
      case _ => SemaphoreOpIsPlain(w, op);
    }
  }

  lemma BlockIsPlain(w: World, b: Block)
    requires ContextsOk(w) && !w.deciding && RefsOk(w) && (b.NotBlocked? || b.Sleeping? || b.Joining?)
    ensures PlainStep(w, YieldOn(w, b))
  {
    hide RefsOk, ContextsOk, PlainStep;
    YieldIsPlain(w, b);
  }

  lemma ThreadIsPlain(w: World, registers: Registers, result: int)
    requires ContextsOk(w) && !w.deciding && RefsOk(w)
    ensures PlainStep(w, w.(cpu := registers)) && PlainStep(w, Finish(w, result))
  {
    hide MutexOk, FileOk;
    assert w.threads[w.current].block == NotBlocked;
  }

  lemma SemaphoreOpIsPlain(w: World, op: Op)
    requires ContextsOk(w) && RefsOk(w) && Enabled(w, op) && (op.WaitSemaphore? || op.PostSemaphore? || op.NewSemaphore?)
    ensures PlainStep(w, Step(w, op))
  {
    hide MutexOk, FileOk;
    var s := op.s;
    SemaphoresArePlain(w, w.res.sems);
    if s in w.res.sems {
      var x := w.res.sems[s];
      SemaphoresArePlain(w, w.res.sems[s := x.(value := x.value + 1)]);
      SemaphoresArePlain(w, w.res.sems[s := x.(value := x.value - 1)]);
      SemaphoresArePlain(w, w.res.sems[s := x.(waiting := x.waiting + {w.current})]);
    }
    if op.NewSemaphore? { SemaphoresArePlain(w, w.res.sems[s := Semaphore(op.value, {})]); }
  }

  lemma SemaphoresArePlain(w: World, sems: map<Pointer, Semaphore>)
    requires ContextsOk(w) && !w.deciding && RefsOk(w)
    ensures var w1 := w.(res := w.res.(sems := sems));
      PlainStep(w, w1) && forall s :: PlainStep(w, YieldOn(w1, OnSemaphore(s)))
  {
    hide MutexOk, FileOk;
  }

  lemma StepIsPlain(w: World, op: Op)
    requires ContextsOk(w) && RefsOk(w) && Enabled(w, op) && IsPlain(op)
    ensures PlainStep(w, Step(w, op))
  {
    if op.LockMutex? || op.UnlockMutex? || op.NewMutex? {
      MutexStepIsPlain(w, op);
    } else if op.LockStream? || op.UnlockStream? || op.NewStream? {
      FileStepIsPlain(w, op);
    } else {
      OtherStepIsPlain(w, op);
    }
  }

  lemma PlainStepKeeps(w: World, w': World)
    requires ContextsOk(w) && !w.deciding && RefsOk(w) && ConditionsOk(w) && PlainStep(w, w')
    ensures RefsOk(w') && ConditionsOk(w')
  {
    SameQueuesKeep(w, w', w.current);
    forall u | 0 <= u < |w'.threads| ensures RefOk(w'.res, Inner(w'.threads[u].block)) {
      assert RefOk(w.res, Inner(w.threads[u].block));
    }
  }

  lemma SuspendQueues(w: World, t: ThreadId)
    requires ContextsOk(w) && SuspensionsOk(w) && RefsOk(w) && ConditionsOk(w) && t < |w.threads|
    ensures RefsOk(Suspend(w, t)) && ConditionsOk(Suspend(w, t))
    ensures RefsOk(Resume(w, t)) && ConditionsOk(Resume(w, t))
  {
    var b := w.threads[t].block;
    hide RefsOk, ConditionsOk, ContextsOk, RefOk;
    if b.Suspended? {
      ReblockQueues(w, t, b.(count := b.count + 1), w.deciding);
      ReblockQueues(w, t, b.(count := if b.count > 1 then b.count - 1 else b.count), w.deciding);
      assert !b.inner.Suspended?;
      ReblockQueues(w, t, b.inner, w.deciding);
    } else {
      ReblockQueues(w, t, Suspended(1, b), w.deciding);
      ReblockQueues(w, t, Suspended(1, b), true);
    }
  }

  /** A thread keeps waiting for what it waits for. */
  lemma ReblockQueues(w: World, t: ThreadId, b: Block, deciding: bool)
    requires RefsOk(w) && ConditionsOk(w) && t < |w.threads| && Inner(b) == Inner(w.threads[t].block)
    ensures RefsOk(SetBlock(w, t, b).(deciding := deciding)) && ConditionsOk(SetBlock(w, t, b).(deciding := deciding))
  {
    hide MutexOk, FileOk, RefOk;
    var w' := SetBlock(w, t, b).(deciding := deciding);
    SameQueuesKeep(w, w', t);
    hide ConditionsOk;
    forall u | 0 <= u < |w'.threads| ensures RefOk(w'.res, Inner(w'.threads[u].block)) {
      assert RefOk(w.res, Inner(w.threads[u].block));
    }
  }

  lemma SpawnQueues(w: World, start: Registers, stack: Pointer)
    requires ContextsOk(w) && RefsOk(w) && ConditionsOk(w)
    ensures RefsOk(Spawn(w, start, stack)) && ConditionsOk(Spawn(w, start, stack))
  {
    var w' := Spawn(w, start, stack);
    forall c | c in w'.res.conds ensures ConditionOk(w', c) {
      assert ConditionOk(w, c);
      var x := w.res.conds[c];
      forall u | u in Queue(x) ensures Queued(w', c, u) { assert Queued(w, c, u); }
      forall u | u in x.timedOut ensures TimedOut(w', c, u) { assert TimedOut(w, c, u); }
    }
    forall u | 0 <= u < |w'.threads| ensures WaiterQueued(w', u) && RefOk(w'.res, Inner(w'.threads[u].block)) {
      assert u < |w.threads| ==> WaiterQueued(w, u) && RefOk(w.res, Inner(w.threads[u].block));
    }
  }

  /** Moving threads from one queue of a condition to its other one. */
  lemma RequeueKeeps(w: World, c: Pointer, x': Condition)
    requires RefsOk(w) && ConditionsOk(w) && c in w.res.conds
    requires x'.mutex == w.res.conds[c].mutex && x'.timedOut == w.res.conds[c].timedOut
    requires Queue(x') == Queue(w.res.conds[c])
    ensures RefsOk(SetCondition(w, c, x')) && ConditionsOk(SetCondition(w, c, x'))
  {
    var w' := SetCondition(w, c, x');
    forall d | d in w'.res.conds ensures ConditionOk(w', d) {
      assert ConditionOk(w, d);
      var x := w.res.conds[d];
      forall u | u in Queue(x) ensures Queued(w', d, u) { assert Queued(w, d, u); }
      forall u | u in x.timedOut ensures TimedOut(w', d, u) { assert TimedOut(w, d, u); }
    }
    forall u | 0 <= u < |w'.threads| ensures WaiterQueued(w', u) && RefOk(w'.res, Inner(w'.threads[u].block)) {
      assert WaiterQueued(w, u) && RefOk(w.res, Inner(w.threads[u].block));
    }
  }

  lemma NewConditionKeeps(w: World, c: Pointer)
    requires RefsOk(w) && ConditionsOk(w) && c !in w.res.conds
    ensures var w' := SetCondition(w, c, Condition([], [], None, {})); RefsOk(w') && ConditionsOk(w')
  {
    var w' := SetCondition(w, c, Condition([], [], None, {}));
    forall d | d in w'.res.conds ensures ConditionOk(w', d) {
      if d != c {
        assert ConditionOk(w, d);
        var x := w.res.conds[d];
        forall u | u in Queue(x) ensures Queued(w', d, u) { assert Queued(w, d, u); }
        forall u | u in x.timedOut ensures TimedOut(w', d, u) { assert TimedOut(w, d, u); }
      }
    }
    forall u | 0 <= u < |w'.threads| ensures WaiterQueued(w', u) && RefOk(w'.res, Inner(w'.threads[u].block)) {
      assert WaiterQueued(w, u) && RefOk(w.res, Inner(w.threads[u].block));
    }
  }

  /** A thread that runs is in no queue. */
  lemma RunningIsUnqueued(w: World, d: Pointer)
    requires ContextsOk(w) && NotInWait(w) && ConditionsOk(w) && !w.deciding && d in w.res.conds
    ensures w.current !in Queue(w.res.conds[d]) && w.current !in w.res.conds[d].timedOut
  {
    assert ConditionOk(w, d);
    assert w.current in Queue(w.res.conds[d]) ==> Queued(w, d, w.current);
    assert w.current in w.res.conds[d].timedOut ==> TimedOut(w, d, w.current);
  }

  /** The current thread at the end of a queue of a condition, with the mutex unlocked. */
  predicate JoinedQueue(w: World, w': World, c: Pointer, m: nat, deadline: Option<Time>)
    requires w.current < |w.threads| && c in w.res.conds && m in w.res.mutexes
  {
    var x := w.res.conds[c];
    && w'.threads == w.threads[w.current := w.threads[w.current].(block := OnCondition(c, deadline), inWait := Some(c))]
    && w'.res.conds == w.res.conds[c := x.(waiting := x.waiting + [w.current], mutex := Some(m))]
    && w'.res.files == w.res.files && w'.res.mutexes == w.res.mutexes[m := Unlocked(w.res.mutexes[m], w.current).0]
  }

  lemma JoinedQueueOk(w: World, w': World, c: Pointer, m: nat, deadline: Option<Time>)
    requires ContextsOk(w) && NotInWait(w) && ConditionsOk(w) && Enabled(w, WaitCondition(c, m, deadline))
    requires JoinedQueue(w, w', c, m, deadline)
    ensures ConditionOk(w', c)
  {
    RunningIsUnqueued(w, c);
    assert ConditionOk(w, c);
    hide ContextsOk, Unlocked;
    var t := w.current;
    var x, x' := w.res.conds[c], w'.res.conds[c];
    assert Queue(x') == Queue(x) + [t];
    forall u | u in Queue(x') ensures Queued(w', c, u) { assert u == t || Queued(w, c, u); }
    forall u | u in x'.timedOut ensures TimedOut(w', c, u) { assert TimedOut(w, c, u); }
  }

  lemma JoinedQueueKeeps(w: World, w': World, c: Pointer, m: nat, deadline: Option<Time>)
    requires ContextsOk(w) && NotInWait(w) && RefsOk(w) && ConditionsOk(w) && Enabled(w, WaitCondition(c, m, deadline))
    requires JoinedQueue(w, w', c, m, deadline)
    ensures RefsOk(w') && ConditionsOk(w')
  {
    JoinedQueueOk(w, w', c, m, deadline);
    assert MutexOk(w.res.mutexes[m]);
    LockedOk(w.res.mutexes[m], w.current);
    forall d | d in w'.res.conds ensures ConditionOk(w', d) {
      if d != c {
        RunningIsUnqueued(w, d);
        ConditionFrame(w, w', d, w.current);
      }
    }
    hide ContextsOk, ConditionOk, MutexOk, FileOk, Unlocked;
    forall u | 0 <= u < |w'.threads| ensures WaiterQueued(w', u) && RefOk(w'.res, Inner(w'.threads[u].block)) {
      assert WaiterQueued(w, u) && RefOk(w.res, Inner(w.threads[u].block));
    }
  }

  /** The current thread joins a queue it was in neither as waiter nor as timed-out thread. */
  lemma CondWaitKeeps(w: World, c: Pointer, m: nat, deadline: Option<Time>)
    requires ContextsOk(w) && NotInWait(w) && RefsOk(w) && ConditionsOk(w) && Enabled(w, WaitCondition(c, m, deadline))
    ensures RefsOk(CondWait(w, c, m, deadline)) && ConditionsOk(CondWait(w, c, m, deadline))
  {
    hide ContextsOk, RefsOk, ConditionsOk, Unlocked;
    if Unlocked(w.res.mutexes[m], w.current).1 { JoinedQueueKeeps(w, CondWait(w, c, m, deadline), c, m, deadline); }
  }

  lemma StepQueues(w: World, op: Op)
    requires ContextsOk(w) && SuspensionsOk(w) && SemaphoresOk(w) && RefsOk(w) && ConditionsOk(w) && NotInWait(w)
    requires Enabled(w, op)
    ensures RefsOk(Step(w, op)) && ConditionsOk(Step(w, op))
  {
    assert w.current < |w.threads| && w.deciding == op.Decide?;
    hide ContextsOk, SuspensionsOk, SemaphoresOk, RefsOk, ConditionsOk, DecideStep, CondWait, Spawn, Suspend, Resume, PlainStep;
    if IsPlain(op) {
      StepIsPlain(w, op);
      PlainStepKeeps(w, Step(w, op));
    } else {
      hide CondSignal, CondBroadcast;
      match op {
        case Decide(now) => DecideQueues(w, now);
        case WaitCondition(c, m, deadline) => CondWaitKeeps(w, c, m, deadline);
        case SignalCondition(c) => SignalKeeps(w, c);
        case BroadcastCondition(c) => SignalKeeps(w, c);
        case NewCondition(c) => NewConditionKeeps(w, c);
        case SpawnThread(start, stack) => SpawnQueues(w, start, stack);
        case SuspendThread(t) => SuspendQueues(w, t);
        case ResumeThread(t) => SuspendQueues(w, t);
      }
    }
  }

  lemma SignalKeeps(w: World, c: Pointer)
    requires RefsOk(w) && ConditionsOk(w) && c in w.res.conds
    ensures RefsOk(CondSignal(w, c)) && ConditionsOk(CondSignal(w, c))
    ensures RefsOk(CondBroadcast(w, c)) && ConditionsOk(CondBroadcast(w, c))
  {
    hide RefsOk, ConditionsOk;
    var x := w.res.conds[c];
    RequeueKeeps(w, c, x.(waiting := [], waking := x.waking + x.waiting));
    if x.waiting != [] {
      assert x.waiting == [x.waiting[0]] + x.waiting[1..];
      RequeueKeeps(w, c, x.(waiting := x.waiting[1..], waking := x.waking + [x.waiting[0]]));
    }
  }

  lemma StepNotInWait(w: World, op: Op)
    requires ContextsOk(w) && NotInWait(w) && Enabled(w, op) && (op.Decide? ==> NotInWait(DecideStep(w, op.now)))
    ensures NotInWait(Step(w, op))
  {}
}
