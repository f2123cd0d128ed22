/** What every step of the thread system keeps: stored contexts, wait queues and references. */
module ThreadInvariants {
  import opened Threads

  /** Everything a running thread may do, and the executor's decision in between. */
  datatype Op =
    | RunGuest(registers: Registers)
    | YieldOnly
    | Sleep(until: Time)
    | LockMutex(m: nat)
    | UnlockMutex(m: nat)
    | WaitSemaphore(s: Pointer, block: bool)
    | PostSemaphore(s: Pointer)
    | WaitCondition(c: Pointer, m: nat, deadline: Option<Time>)
    | SignalCondition(c: Pointer)
    | BroadcastCondition(c: Pointer)
    | Join(j: ThreadId, result: Pointer)
    | LockStream(f: Pointer)
    | UnlockStream(f: Pointer)
    | SpawnThread(start: Registers, stack: Pointer)
    | FinishThread(result: int)
    | SuspendThread(t: ThreadId)
    | ResumeThread(t: ThreadId)
    | NewMutex(m: nat, kind: MutexKind)
    | NewSemaphore(s: Pointer, value: int)
    | NewCondition(c: Pointer)
    | NewStream(f: Pointer)
    | Decide(now: Time)

  /** What the operations assert or unwrap about their arguments. Objects are created once and
      not destroyed; the executor decides exactly when control is with it. */
  predicate Enabled(w: World, op: Op) {
    && w.current < |w.threads|
    && w.deciding == op.Decide?
    && match op
       case LockMutex(m) => m in w.res.mutexes
       case UnlockMutex(m) => m in w.res.mutexes
       case WaitCondition(c, m, _) =>
         && m in w.res.mutexes && c in w.res.conds
         && (w.res.conds[c].mutex == Some(m) || (w.res.conds[c].waiting == [] && w.res.conds[c].waking == []))
       case SignalCondition(c) => c in w.res.conds
       case BroadcastCondition(c) => c in w.res.conds
       case LockStream(f) => f in w.res.files
       case UnlockStream(f) => f in w.res.files && w.res.files[f].owner == Some(w.current) && w.res.files[f].depth > 0
       case SuspendThread(t) => t < |w.threads|
       case ResumeThread(t) => t < |w.threads|
       case NewMutex(m, _) => m !in w.res.mutexes
       case NewCondition(c) => c !in w.res.conds
       case NewStream(f) => f !in w.res.files
       case _ => true
  }

  function DecideStep(w: World, now: Time): World
    requires w.current < |w.threads|
  {
    var (w1, d) := Pass(w, 0, now, None);
    match d
    case Chosen(t) =>
      if t >= |w1.threads| || w1.current >= |w1.threads| then w1
      else if t == w1.current then Continue(w1)
      else if w1.threads[t].guest.Some? then Continue(SwitchTo(w1, t)) else w1
    case _ => w1
  }

  function Step(w: World, op: Op): World
    requires Enabled(w, op)
  {
    match op
    case RunGuest(registers) => w.(cpu := registers)
    case YieldOnly => YieldOn(w, NotBlocked)
    case Sleep(until) => YieldOn(w, Sleeping(until))
    case LockMutex(m) => Lock(w, m)
    case UnlockMutex(m) => Unlock(w, m)
    case WaitSemaphore(s, block) => SemWait(w, s, block)
    case PostSemaphore(s) => SemPost(w, s)
    case WaitCondition(c, m, deadline) => CondWait(w, c, m, deadline)
    case SignalCondition(c) => CondSignal(w, c)
    case BroadcastCondition(c) => CondBroadcast(w, c)
    case Join(j, result) => YieldOn(w, Joining(j, result))
    case LockStream(f) => LockFile(w, f)
    case UnlockStream(f) => UnlockFile(w, f)
    case SpawnThread(start, stack) => Spawn(w, start, stack)
    case FinishThread(result) => Finish(w, result)
    case SuspendThread(t) => Suspend(w, t)
    case ResumeThread(t) => Resume(w, t)
    case NewMutex(m, kind) => SetMutex(w, m, Mutex(kind, None, 0, 0, map[]))
    case NewSemaphore(s, value) => if s in w.res.sems then w else w.(res := SetSemaphore(w.res, s, Semaphore(value, {})))
    case NewCondition(c) => SetCondition(w, c, Condition([], [], None, {}))
    case NewStream(f) => w.(res := SetFile(w.res, f, FileLock(None, 0)))
    case Decide(now) => DecideStep(w, now)
  }

  // ---- Contexts ----

  predicate OtherContextOk(x: Thread, t: ThreadId) { x.guest.Some? && (x.active ==> x.host == Some(t)) }

  /** Exactly the current thread has no stored guest context, every other active thread has its
      own coroutine stored, and the executor holds the current thread's one until it returns.
      Active threads, and no others, have a stack. */
  predicate ContextsOk(w: World) {
    && w.current < |w.threads|
    && w.threads[w.current].guest.None? && w.threads[w.current].host.None?
    && (forall t | 0 <= t < |w.threads| && t != w.current :: OtherContextOk(w.threads[t], t))
    && (forall t | 0 <= t < |w.threads| :: w.threads[t].active <==> w.threads[t].stack.Some?)
    && (if w.threads[w.current].active then w.running == Some(w.current) else w.running == None && w.deciding)
    && (!w.deciding ==> w.threads[w.current].block == NotBlocked)
  }

  /** Operations on mutexes, semaphores, conditions and files, waiting for a condition apart. */
  predicate IsResourceOp(op: Op) {
    || op.LockMutex? || op.UnlockMutex? || op.WaitSemaphore? || op.PostSemaphore? || op.SignalCondition? || op.BroadcastCondition?
    || op.LockStream? || op.UnlockStream? || op.NewMutex? || op.NewSemaphore? || op.NewCondition? || op.NewStream?
  }

  /** They change resources, and may block the current thread; nothing else. */
  lemma PlainShape(w: World, op: Op) returns (b: Option<Block>)
    requires Enabled(w, op) && IsResourceOp(op)
    ensures Step(w, op) == if b.None? then w.(res := Step(w, op).res) else YieldOn(w.(res := Step(w, op).res), b.value)
    ensures b.Some? ==> (
      || (op.LockMutex? && b.value == OnMutex(op.m)) || (op.LockStream? && b.value == OnFile(op.f))
      || (op.WaitSemaphore? && b.value == OnSemaphore(op.s)))
  {
    hide Locked, Unlocked, HeldByOther, SetSemaphore, SetFile, YieldOn;
    match op {
      case LockMutex(m) =>
        hide SetMutex;
        b := if HeldByOther(w.res.mutexes[m], w.current) then Some(OnMutex(m)) else None;
        SetMutexShape(w, m, w.res.mutexes[m].(waiters := w.res.mutexes[m].waiters + 1));
        SetMutexShape(w, m, Locked(w.res.mutexes[m], w.current));
        YieldResources(w, SetMutex(w, m, w.res.mutexes[m].(waiters := w.res.mutexes[m].waiters + 1)).res, OnMutex(m));
      case WaitSemaphore(s, block) =>
        var x := w.res.sems;
        b := if s in x && x[s].value <= 0 && block then Some(OnSemaphore(s)) else None;
        if b.Some? { YieldResources(w, SetSemaphore(w.res, s, x[s].(waiting := x[s].waiting + {w.current})), OnSemaphore(s)); }
      case LockStream(f) =>
        var x := w.res.files[f];
        b := if x.owner.Some? && x.owner.value != w.current then Some(OnFile(f)) else None;
        if b.Some? { YieldResources(w, w.res, OnFile(f)); }
      case _ => b := None;
    }
  }

  lemma SetMutexShape(w: World, m: nat, x: Mutex)
    ensures SetMutex(w, m, x) == w.(res := SetMutex(w, m, x).res)
  {}

  lemma YieldResources(w: World, r: Resources, b: Block)
    requires w.current < |w.threads|
    ensures YieldOn(w.(res := r), b).res == r
  {}

  predicate SameContext(x: Thread, y: Thread) { x.active == y.active && x.guest == y.guest && x.host == y.host && x.stack == y.stack }

  /** The candidates' contexts do not change while the scheduler looks for one to wake. */
  predicate SameContexts(w: World, w': World) {
    && |w.threads| == |w'.threads| && w.current == w'.current && w.running == w'.running && w.cpu == w'.cpu
    && w.deciding == w'.deciding
    && forall t | 0 <= t < |w.threads| :: SameContext(w.threads[t], w'.threads[t])
  }

  lemma {:induction false} PassContexts(w: World, i: nat, now: Time, next: Option<Time>)
    requires w.current < |w.threads| && i <= |w.threads|
    ensures SameContexts(w, Pass(w, i, now, next).0)
    decreases |w.threads| - i
  {
    if i < |w.threads| {
      var t := Candidate(w, i);
      var (w1, v) := TryWake(w, t, now);
      if v.Skip? { PassContexts(w1, i + 1, now, Sooner(next, v.next)); }
    }
  }

  /** A chosen thread is active and, from now on, not blocked. */
  lemma {:induction false} PassChooses(w: World, i: nat, now: Time, next: Option<Time>)
    requires w.current < |w.threads| && i <= |w.threads|
    requires Pass(w, i, now, next).1.Chosen?
    ensures var (w', d) := Pass(w, i, now, next);
      d.thread < |w'.threads| && w'.threads[d.thread].active && w'.threads[d.thread].block == NotBlocked
    decreases |w.threads| - i
  {
    var t := Candidate(w, i);
    var (w1, v) := TryWake(w, t, now);
    if v.Skip? { PassChooses(w1, i + 1, now, Sooner(next, v.next)); }
  }

  /** Everything the context switch unwraps or asserts about its old and new thread. */
  predicate SwitchSafe(w: World, t: ThreadId) {
    && t < |w.threads| && w.threads[t].active && w.threads[t].block == NotBlocked
    && (w.current < |w.threads| && t != w.current ==>
          && w.threads[t].guest.Some? && w.threads[t].host.Some?
          && w.threads[w.current].guest.None? && (w.running.Some? || !w.threads[w.current].active))
  }

  /** Looking for a thread keeps contexts where they are. */
  lemma SameContextsKeep(w: World, w': World)
    requires ContextsOk(w) && w.deciding && SameContexts(w, w')
    ensures ContextsOk(w')
  {
    forall t | 0 <= t < |w'.threads| ensures SameContext(w.threads[t], w'.threads[t]) {}
  }

  lemma SwitchContexts(w: World, t: ThreadId)
    requires ContextsOk(w) && w.deciding && SwitchSafe(w, t) && t != w.current
    ensures ContextsOk(SwitchTo(w, t)) && SwitchTo(w, t).threads[t].block == NotBlocked
  {}

  lemma ContinueContexts(w: World)
    requires ContextsOk(w) && w.deciding && w.threads[w.current].active && w.threads[w.current].block == NotBlocked
    ensures ContextsOk(Continue(w))
  {}

  lemma ChosenIsSafe(w: World, t: ThreadId)
    requires ContextsOk(w) && t < |w.threads| && w.threads[t].active && w.threads[t].block == NotBlocked
    ensures SwitchSafe(w, t)
  {}

  /** The unwraps and assertions of the context switch hold whenever it is reached, the executor
      ends up with a coroutine, and contexts stay where they belong. */
  lemma DecideContexts(w: World, now: Time)
    requires ContextsOk(w) && w.deciding
    ensures ContextsOk(DecideStep(w, now))
    ensures var (w1, d) := Pass(w, 0, now, None); d.Chosen? ==> (
      && SwitchSafe(w1, d.thread)
      && DecideStep(w, now).current == d.thread && !DecideStep(w, now).deciding
      && DecideStep(w, now).running == Some(d.thread))
  {
    hide Pass;
    PassContexts(w, 0, now, None);
    var (w1, d) := Pass(w, 0, now, None);
    SameContextsKeep(w, w1);
    if d.Chosen? {
      PassChooses(w, 0, now, None);
      ChosenIsSafe(w1, d.thread);
      if d.thread == w1.current { ContinueContexts(w1); } else { ContinueSwitched(w1, d.thread); }
    }
  }

  lemma ContinueSwitched(w: World, t: ThreadId)
    requires ContextsOk(w) && w.deciding && SwitchSafe(w, t) && t != w.current
    ensures var w' := Continue(SwitchTo(w, t)); ContextsOk(w') && w'.current == t && !w'.deciding && w'.running == Some(t)
  {
    SwitchContexts(w, t);
    ContinueContexts(SwitchTo(w, t));
  }

  lemma ResourcesContexts(w: World, r: Resources)
    requires ContextsOk(w)
    ensures ContextsOk(w.(res := r))
  {}

  lemma BlockContexts(w: World, t: ThreadId, b: Block)
    requires ContextsOk(w) && t < |w.threads| && (t == w.current ==> w.deciding || b == NotBlocked)
    ensures ContextsOk(SetBlock(w, t, b))
  {}

  lemma YieldContexts(w: World, r: Resources, b: Block)
    requires ContextsOk(w) && !w.deciding
    ensures ContextsOk(YieldOn(w.(res := r), b))
  {}

  lemma ThreadContexts(w: World, start: Registers, stack: Pointer, result: int)
    requires ContextsOk(w) && !w.deciding
    ensures ContextsOk(Spawn(w, start, stack)) && ContextsOk(Finish(w, result))
  {}

  lemma CondWaitContexts(w: World, c: Pointer, m: nat, deadline: Option<Time>)
    requires ContextsOk(w) && !w.deciding && m in w.res.mutexes && c in w.res.conds
    ensures ContextsOk(CondWait(w, c, m, deadline))
  {
    hide Unlocked;
  }

  lemma SuspendContexts(w: World, t: ThreadId)
    requires ContextsOk(w) && !w.deciding && t < |w.threads|
    ensures ContextsOk(Suspend(w, t)) && ContextsOk(Resume(w, t))
  {
    var b := w.threads[t].block;
    assert t == w.current ==> b == NotBlocked;
    hide ContextsOk;
    if b.Suspended? {
      BlockContexts(w, t, b.(count := b.count + 1));
      BlockContexts(w, t, if b.count > 1 then b.(count := b.count - 1) else b.inner);
    } else if t == w.current {
      YieldContexts(w, w.res, Suspended(1, b));
    } else {
      BlockContexts(w, t, Suspended(1, b));
    }
  }

  lemma StepContexts(w: World, op: Op)
    requires ContextsOk(w) && Enabled(w, op)
    ensures ContextsOk(Step(w, op))
  {
    hide ContextsOk, DecideStep, CondWait, Suspend, Resume, Spawn, Finish, YieldOn, Lock, SemWait, LockFile, CondSignal, CondBroadcast;
    match op {
      case Decide(now) => DecideContexts(w, now);
      case RunGuest(registers) => RegistersContexts(w, registers);
      case YieldOnly => YieldContexts(w, w.res, NotBlocked);
      case Sleep(until) => YieldContexts(w, w.res, Sleeping(until));
      case Join(j, result) => YieldContexts(w, w.res, Joining(j, result));
      case WaitCondition(c, m, deadline) => CondWaitContexts(w, c, m, deadline);
      case SpawnThread(start, stack) => ThreadContexts(w, start, stack, 0);
      case FinishThread(result) => ThreadContexts(w, map[], 0, result);
      case SuspendThread(t) => SuspendContexts(w, t);
      case ResumeThread(t) => SuspendContexts(w, t);
      case _ => ResourceOpContexts(w, op);
    }
  }

  lemma ResourceOpContexts(w: World, op: Op)
    requires ContextsOk(w) && Enabled(w, op) && IsResourceOp(op)
    ensures ContextsOk(Step(w, op))
  {
    var b := PlainShape(w, op);
    hide ContextsOk, Step;
    if b.None? { ResourcesContexts(w, Step(w, op).res); } else { YieldContexts(w, Step(w, op).res, b.value); }
  }

  lemma RegistersContexts(w: World, registers: Registers)
    requires ContextsOk(w)
    ensures ContextsOk(w.(cpu := registers))
  {}

  // ---- Semaphores ----

  predicate SuspensionsOk(w: World) {
    forall t | 0 <= t < |w.threads| :: w.threads[t].block.Suspended? ==>
      w.threads[t].block.count > 0 && !w.threads[t].block.inner.Suspended?
  }

  predicate WaiterOk(w: World, s: Pointer, t: ThreadId) { t < |w.threads| && Inner(w.threads[t].block) == OnSemaphore(s) }

  /** The waiting set of a semaphore is exactly the threads blocked on it, suspended or not. */
  predicate SemaphoresOk(w: World) {
    && (forall s, t | s in w.res.sems && t in w.res.sems[s].waiting :: WaiterOk(w, s, t))
    && (forall t | 0 <= t < |w.threads| && Inner(w.threads[t].block).OnSemaphore? ::
          var s := Inner(w.threads[t].block).sem; s in w.res.sems && t in w.res.sems[s].waiting)
  }

  lemma TryWakeSemaphores(w: World, t: ThreadId, now: Time)
    requires t < |w.threads| && SuspensionsOk(w) && SemaphoresOk(w)
    ensures SuspensionsOk(TryWake(w, t, now).0) && SemaphoresOk(TryWake(w, t, now).0)
  {
    if w.threads[t].active {
      var k := LookAt(w.res, w.threads, t, now);
      var b := w.threads[t].block;
      if b.OnSemaphore? {
        LookSemaphoreEffect(w, t, b.sem);
        assert !k.block.Suspended?;
      } else {
        LookOtherSemaphores(w, t, now);
        hide LookAt, SemaphoresOk, SuspensionsOk;
        ReblockKeeps(w, t, k.block);
        ResourcesKeep(SetBlock(w, t, k.block), k.res);
      }
    }
  }

  /** A look at a thread that waits for something else. */
  lemma LookOtherSemaphores(w: World, t: ThreadId, now: Time)
    requires t < |w.threads| && !w.threads[t].block.OnSemaphore? && SuspensionsOk(w)
    ensures var k, b := LookAt(w.res, w.threads, t, now), w.threads[t].block;
      && OnlyPosts(w.res, k.res) && (k.block.Suspended? ==> k.block.count > 0 && !k.block.inner.Suspended?)
      && (Inner(k.block) == Inner(b) || (!Inner(k.block).OnSemaphore? && !Inner(b).OnSemaphore?))
  {
    assert LookAt(w.res, w.threads, t, now).res.sems == w.res.sems;
  }

  lemma LookSemaphoreEffect(w: World, t: ThreadId, s: Pointer)
    requires t < |w.threads| && SemaphoresOk(w) && w.threads[t].block == OnSemaphore(s)
    ensures var k := LookSemaphore(w.res, t, s); SemaphoresOk(SetBlock(w, t, k.block).(res := k.res))
  {
    assert Inner(w.threads[t].block) == OnSemaphore(s);
    var k := LookSemaphore(w.res, t, s);
    var w' := SetBlock(w, t, k.block).(res := k.res);
    forall s', u | s' in w'.res.sems && u in w'.res.sems[s'].waiting ensures WaiterOk(w', s', u) {
      assert WaiterOk(w, s', u);
    }
  }

  lemma {:induction false} PassSemaphores(w: World, i: nat, now: Time, next: Option<Time>)
    requires w.current < |w.threads| && i <= |w.threads| && SuspensionsOk(w) && SemaphoresOk(w)
    ensures SuspensionsOk(Pass(w, i, now, next).0) && SemaphoresOk(Pass(w, i, now, next).0)
    decreases |w.threads| - i
  {
    if i < |w.threads| {
      var t := Candidate(w, i);
      TryWakeSemaphores(w, t, now);
      var (w1, v) := TryWake(w, t, now);
      if v.Skip? { PassSemaphores(w1, i + 1, now, Sooner(next, v.next)); }
    }
  }

  predicate SameWaits(w: World, w': World) {
    |w.threads| == |w'.threads| && forall t | 0 <= t < |w.threads| :: w'.threads[t].block == w.threads[t].block
  }

  lemma SemaphoresFrame(w: World, w': World)
    requires SuspensionsOk(w) && SemaphoresOk(w) && SameWaits(w, w') && w'.res.sems == w.res.sems
    ensures SuspensionsOk(w') && SemaphoresOk(w')
  {
    forall s, t | s in w'.res.sems && t in w'.res.sems[s].waiting ensures WaiterOk(w', s, t) {
      assert WaiterOk(w, s, t);
    }
  }

  lemma DecideSemaphores(w: World, now: Time)
    requires w.current < |w.threads| && SuspensionsOk(w) && SemaphoresOk(w)
    ensures SuspensionsOk(DecideStep(w, now)) && SemaphoresOk(DecideStep(w, now))
  {
    PassSemaphores(w, 0, now, None);
    DecideWaits(w, now);
    hide Pass, DecideStep, SemaphoresOk, SuspensionsOk;
    SemaphoresFrame(Pass(w, 0, now, None).0, DecideStep(w, now));
  }

  /** Switching changes nobody's block. */
  lemma DecideWaits(w: World, now: Time)
    requires w.current < |w.threads|
    ensures var w1 := Pass(w, 0, now, None).0; SameWaits(w1, DecideStep(w, now)) && DecideStep(w, now).res.sems == w1.res.sems
  {
    hide Pass;
  }

  lemma SemWaitKeeps(w: World, s: Pointer, block: bool)
    requires ContextsOk(w) && !w.deciding && SuspensionsOk(w) && SemaphoresOk(w)
    ensures SuspensionsOk(SemWait(w, s, block)) && SemaphoresOk(SemWait(w, s, block))
  {
    var w' := SemWait(w, s, block);
    forall s', u | s' in w'.res.sems && u in w'.res.sems[s'].waiting ensures WaiterOk(w', s', u) {
      if s' != s || u in w.res.sems[s].waiting { assert WaiterOk(w, s', u); }
    }
  }

  /** A block of one thread that changes neither what it waits for nor the semaphores. */
  lemma ReblockKeeps(w: World, t: ThreadId, b: Block)
    requires t < |w.threads| && SuspensionsOk(w) && SemaphoresOk(w)
    requires b.Suspended? ==> b.count > 0 && !b.inner.Suspended?
    requires Inner(b) == Inner(w.threads[t].block) || (!Inner(b).OnSemaphore? && !Inner(w.threads[t].block).OnSemaphore?)
    ensures SuspensionsOk(SetBlock(w, t, b)) && SemaphoresOk(SetBlock(w, t, b))
  {
    var w' := SetBlock(w, t, b);
    forall s, u | s in w'.res.sems && u in w'.res.sems[s].waiting ensures WaiterOk(w', s, u) {
      assert WaiterOk(w, s, u);
    }
  }

  predicate OnlyPosts(r: Resources, r': Resources) {
    && (forall s | s in r.sems :: s in r'.sems && r'.sems[s].waiting == r.sems[s].waiting)
    && (forall s | s in r'.sems :: s in r.sems || r'.sems[s].waiting == {})
  }

  /** Changing resources without touching anybody's place in a semaphore's waiting set. */
  lemma ResourcesKeep(w: World, r: Resources)
    requires SuspensionsOk(w) && SemaphoresOk(w) && OnlyPosts(w.res, r)
    ensures SuspensionsOk(w.(res := r)) && SemaphoresOk(w.(res := r))
  {
    var w' := w.(res := r);
    forall s, u | s in r.sems && u in r.sems[s].waiting ensures WaiterOk(w', s, u) { assert WaiterOk(w, s, u); }
  }

  /** A step that only blocks the current thread on something other than a semaphore, if that. */
  predicate LocalStep(w: World, w': World)
    requires w.current < |w.threads|
  {
    && |w'.threads| == |w.threads| && OnlyPosts(w.res, w'.res)
    && (forall t | 0 <= t < |w.threads| && t != w.current :: w'.threads[t].block == w.threads[t].block)
    && !w'.threads[w.current].block.Suspended? && !w'.threads[w.current].block.OnSemaphore?
  }

  lemma LocalStepKeeps(w: World, w': World)
    requires ContextsOk(w) && !w.deciding && SuspensionsOk(w) && SemaphoresOk(w) && LocalStep(w, w')
    ensures SuspensionsOk(w') && SemaphoresOk(w')
  {
    var w1 := w.(res := w'.res);
    ResourcesKeep(w, w'.res);
    ReblockKeeps(w1, w.current, w'.threads[w.current].block);
    SemaphoresFrame(SetBlock(w1, w.current, w'.threads[w.current].block), w');
  }

  predicate IsLocal(op: Op) {
    !op.Decide? && !op.WaitSemaphore? && !op.SuspendThread? && !op.ResumeThread? && !op.SpawnThread?
  }

  lemma ResourcesLocal(w: World, r: Resources)
    requires ContextsOk(w) && !w.deciding && OnlyPosts(w.res, r)
    ensures LocalStep(w, w.(res := r))
  {}

  lemma YieldLocal(w: World, r: Resources, b: Block)
    requires ContextsOk(w) && !w.deciding && OnlyPosts(w.res, r) && !b.Suspended? && !b.OnSemaphore?
    ensures LocalStep(w, YieldOn(w.(res := r), b))
  {}

  lemma ResourceOpPosts(w: World, op: Op)
    requires Enabled(w, op) && IsResourceOp(op) && !op.WaitSemaphore?
    ensures OnlyPosts(w.res, Step(w, op).res)
  {
    hide Locked, Unlocked, HeldByOther;
    if !op.PostSemaphore? && !op.NewSemaphore? { ResourceOpSemaphores(w, op); }
  }

  lemma ResourceOpSemaphores(w: World, op: Op)
    requires Enabled(w, op) && IsResourceOp(op) && !op.WaitSemaphore? && !op.PostSemaphore? && !op.NewSemaphore?
    ensures Step(w, op).res.sems == w.res.sems
  {
    hide Locked, Unlocked, HeldByOther;
  }

  lemma CondWaitLocal(w: World, c: Pointer, m: nat, deadline: Option<Time>)
    requires ContextsOk(w) && !w.deciding && m in w.res.mutexes && c in w.res.conds
    ensures LocalStep(w, CondWait(w, c, m, deadline))
  {
    hide Unlocked;
    assert CondWait(w, c, m, deadline).res.sems == w.res.sems;
  }

  lemma StepIsLocal(w: World, op: Op)
    requires ContextsOk(w) && Enabled(w, op) && IsLocal(op)
    ensures LocalStep(w, Step(w, op))
  {
    hide LocalStep, ContextsOk, CondWait, YieldOn, Lock, LockFile, CondSignal, CondBroadcast;
    match op {
      case RunGuest(registers) => RegistersLocal(w, registers, 0);
      case FinishThread(result) => RegistersLocal(w, map[], result);
      case YieldOnly => YieldLocal(w, w.res, NotBlocked);
      case Sleep(until) => YieldLocal(w, w.res, Sleeping(until));
      case Join(j, result) => YieldLocal(w, w.res, Joining(j, result));
      case WaitCondition(c, m, deadline) => CondWaitLocal(w, c, m, deadline);
      case _ => ResourceOpLocal(w, op);
    }
  }

  lemma RegistersLocal(w: World, registers: Registers, result: int)
    requires ContextsOk(w) && !w.deciding
    ensures LocalStep(w, w.(cpu := registers)) && LocalStep(w, Finish(w, result))
  {}

  lemma ResourceOpLocal(w: World, op: Op)
    requires ContextsOk(w) && Enabled(w, op) && IsResourceOp(op) && IsLocal(op)
    ensures LocalStep(w, Step(w, op))
  {
    var b := PlainShape(w, op);
    ResourceOpPosts(w, op);
    hide LocalStep, ContextsOk, Step, OnlyPosts;
    if b.None? { ResourcesLocal(w, Step(w, op).res); } else { YieldLocal(w, Step(w, op).res, b.value); }
  }

  lemma SuspendKeeps(w: World, t: ThreadId)
    requires ContextsOk(w) && SuspensionsOk(w) && SemaphoresOk(w) && t < |w.threads|
    ensures SuspensionsOk(Suspend(w, t)) && SemaphoresOk(Suspend(w, t))
    ensures SuspensionsOk(Resume(w, t)) && SemaphoresOk(Resume(w, t))
  {
    var b := w.threads[t].block;
    ReblockKeeps(w, t, Suspend(w, t).threads[t].block);
    SemaphoresFrame(SetBlock(w, t, Suspend(w, t).threads[t].block), Suspend(w, t));
    if b.Suspended? { ReblockKeeps(w, t, Resume(w, t).threads[t].block); }
  }

  lemma StepSemaphores(w: World, op: Op)
    requires ContextsOk(w) && SuspensionsOk(w) && SemaphoresOk(w) && Enabled(w, op)
    ensures SuspensionsOk(Step(w, op)) && SemaphoresOk(Step(w, op))
  {
    assert w.current < |w.threads| && !w.deciding == !op.Decide?;
    hide ContextsOk, SuspensionsOk, SemaphoresOk, LocalStep, DecideStep, Suspend, Resume, Spawn, SemWait;
    if IsLocal(op) {
      StepIsLocal(w, op);
      LocalStepKeeps(w, Step(w, op));
    } else {
      match op {
        case Decide(now) => DecideSemaphores(w, now);
        case WaitSemaphore(s, block) => SemWaitKeeps(w, s, block);
        case SuspendThread(t) => SuspendKeeps(w, t);
        case ResumeThread(t) => SuspendKeeps(w, t);
        case SpawnThread(start, stack) => SpawnSemaphores(w, start, stack);
      }
    }
  }

  lemma SpawnSemaphores(w: World, start: Registers, stack: Pointer)
    requires SuspensionsOk(w) && SemaphoresOk(w)
    ensures SuspensionsOk(Spawn(w, start, stack)) && SemaphoresOk(Spawn(w, start, stack))
  {
    var w' := Spawn(w, start, stack);
    forall s, u | s in w'.res.sems && u in w'.res.sems[s].waiting ensures WaiterOk(w', s, u) { assert WaiterOk(w, s, u); }
  }
}
