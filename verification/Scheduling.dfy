/** What scheduling decisions guarantee, one by one and over whole runs. */
module Scheduling {
  import opened Threads
  import opened ThreadInvariants
  import opened WaitQueues

  // ---- Reachable worlds ----

  predicate WorldOk(w: World) {
    ContextsOk(w) && SuspensionsOk(w) && SemaphoresOk(w) && RefsOk(w) && ConditionsOk(w) && NotInWait(w)
  }

  const MAIN_THREAD_STACK_LOW_END := 0xfff0_0000

  /** The main thread alone, its coroutine taken out of it by the executor. */
  function Boot(cpu: Registers): World {
    World([Thread(true, NotBlocked, None, None, None, None, Some(MAIN_THREAD_STACK_LOW_END))], 0, cpu, Some(0), false,
          Resources(map[], map[], map[], map[], map[]))
  }

  predicate RunOk(w: World, ops: seq<Op>)
    decreases |ops|
  {
    ops == [] || (Enabled(w, ops[0]) && RunOk(Step(w, ops[0]), ops[1..]))
  }

  function Run(w: World, ops: seq<Op>): World
    requires RunOk(w, ops)
    decreases |ops|
  {
    if ops == [] then w else Run(Step(w, ops[0]), ops[1..])
  }

  lemma StepKeeps(w: World, op: Op)
    requires WorldOk(w) && Enabled(w, op)
    ensures WorldOk(Step(w, op))
  {
    StepContexts(w, op);
    StepSemaphores(w, op);
    StepQueues(w, op);
    if op.Decide? { DecideQueues(w, op.now); }
    StepNotInWait(w, op);
  }

  lemma {:induction false} RunKeeps(w: World, ops: seq<Op>)
    requires WorldOk(w) && RunOk(w, ops)
    ensures WorldOk(Run(w, ops))
    decreases |ops|
  {
    if ops != [] {
      StepKeeps(w, ops[0]);
      RunKeeps(Step(w, ops[0]), ops[1..]);
    }
  }

  /** In every world the system can reach, each thread but the current one has its CPU context and,
      while alive, its own coroutine stored; a decision panics nowhere and hands a coroutine to the
      executor together with an active, unblocked thread. */
  lemma EveryReachableDecisionIsSafe(cpu: Registers, ops: seq<Op>, now: Time)
    requires RunOk(Boot(cpu), ops)
    ensures var w := Run(Boot(cpu), ops);
      && ContextsOk(w)
      && (w.deciding ==>
            var (w1, d) := Pass(w, 0, now, None);
            !d.Crashed? && (d.Chosen? ==> SwitchSafe(w1, d.thread) && DecideStep(w, now).running == Some(d.thread)))
  {
    RunKeeps(Boot(cpu), ops);
    var w := Run(Boot(cpu), ops);
    if w.deciding {
      DecideContexts(w, now);
      DecideQueues(w, now);
    }
  }

  // ---- One decision ----

  predicate Free(r: Resources, m: Option<nat>) { m.Some? && m.value in r.mutexes && r.mutexes[m.value].owner.None? }

  /** A look that lets nobody run changes no mutex, semaphore or file lock, no memory, and of the
      conditions only queues of those whose mutex is locked. */
  predicate SameLocks(r: Resources, r': Resources) {
    && r'.mutexes == r.mutexes && r'.sems == r.sems && r'.files == r.files && r'.mem == r.mem
    && r'.conds.Keys == r.conds.Keys
    && (forall c | c in r.conds :: r'.conds[c].mutex == r.conds[c].mutex)
    && (forall c | c in r.conds && Free(r, r.conds[c].mutex) :: r'.conds[c] == r.conds[c])
  }

  lemma SkipSameLocks(r: Resources, threads: seq<Thread>, t: ThreadId, now: Time)
    requires t < |threads| && LookAt(r, threads, t, now).verdict.Skip?
    ensures SameLocks(r, LookAt(r, threads, t, now).res)
  {}

  /** The place of a thread in the order in which a pass looks at the threads. */
  function Place(w: World, t: ThreadId): nat
    requires w.current < |w.threads| && t < |w.threads|
  {
    if t > w.current then t - w.current - 1 else t + |w.threads| - w.current - 1
  }

  lemma PlaceOfCandidate(w: World, t: ThreadId)
    requires w.current < |w.threads| && t < |w.threads|
    ensures Place(w, t) < |w.threads| && Candidate(w, Place(w, t)) == t
    ensures forall i: nat | i < |w.threads| :: Candidate(w, i) == t ==> i == Place(w, t)
  {}

  lemma ModWrap(a: nat, n: nat)
    requires a < 2 * n
    ensures a % n == if a < n then a else a - n
  {
    if a >= n { assert a == 1 * n + (a - n); }
  }

  /** Candidates are taken in cyclic order. */
  lemma CandidateIsCyclic(w: World, i: nat)
    requires w.current < |w.threads| && i < |w.threads|
    ensures Candidate(w, i) == (w.current + 1 + i) % |w.threads|
  {
    ModWrap(w.current + 1 + i, |w.threads|);
  }

  /** Looking ends no thread and changes no thread's result. */
  predicate SameResults(w: World, w': World) {
    && |w'.threads| == |w.threads|
    && forall u | 0 <= u < |w.threads| ::
         w'.threads[u].active == w.threads[u].active && w'.threads[u].returnValue == w.threads[u].returnValue
  }

  /** A choice comes from one successful look, at a thread still blocked as it was when the pass
      began, with the locks as they were; nobody looked at before could run. */
  lemma {:induction false} ChoiceComesFromLook(w: World, i: nat, now: Time, next: Option<Time>) returns (at: World)
    requires w.current < |w.threads| && i <= |w.threads| && Pass(w, i, now, next).1.Chosen?
    ensures var (w', d) := Pass(w, i, now, next);
      && d.thread < |w.threads| == |at.threads| && i <= Place(w, d.thread)
      && at.threads[d.thread] == w.threads[d.thread] && SameLocks(w.res, at.res) && SameResults(w, at)
      && TryWake(at, d.thread, now) == (w', Wake)
    decreases |w.threads| - i
  {
    var t := Candidate(w, i);
    PlaceOfCandidate(w, t);
    var (w1, v) := TryWake(w, t, now);
    if v == Wake { return w; }
    if w.threads[t].active { SkipSameLocks(w.res, w.threads, t, now); }
    at := ChoiceComesFromLook(w1, i + 1, now, Sooner(next, v.next));
    var d := Pass(w, i, now, next).1;
    PlaceOfCandidate(w, d.thread);
    assert d.thread != t;
  }

  /** The mutex a blocked thread takes when it is woken. */
  function MutexWanted(w: World, t: ThreadId): Option<nat>
    requires t < |w.threads|
  {
    match w.threads[t].block
    case OnMutex(m) => Some(m)
    case OnCondition(c, _) => if c in w.res.conds then w.res.conds[c].mutex else None
    case _ => None
  }

  /** Whether it waited for the mutex itself, for a signal or for a timeout: a thread is woken only
      when the mutex is free, it owns the mutex from then on, and no other mutex changes hands. */
  lemma WokenThreadOwnsItsMutex(w: World, now: Time)
    requires WorldOk(w) && w.deciding && Pass(w, 0, now, None).1.Chosen?
    ensures var w' := DecideStep(w, now);
      var t := w'.current;
      match MutexWanted(w, t)
      case Some(m) =>
        (&& !IsLocked(w.res, m) && m in w'.res.mutexes && w'.res.mutexes[m].owner == Some(t) && w'.res.mutexes[m].depth == 1
         && forall n | n != m && n in w.res.mutexes :: n in w'.res.mutexes && w'.res.mutexes[n] == w.res.mutexes[n])
      case None => w'.res.mutexes == w.res.mutexes
  {
    var at := ChoiceComesFromLook(w, 0, now, None);
    var (w1, d) := Pass(w, 0, now, None);
    DecideContexts(w, now);
    DecideKeepsMutexes(w, now);
    LookTakesMutex(at, d.thread, now);
    assert WaiterQueued(w, d.thread);
    hide WorldOk, Pass, DecideStep, TryWake;
    assert MutexWanted(at, d.thread) == MutexWanted(w, d.thread);
  }

  lemma DecideKeepsMutexes(w: World, now: Time)
    requires w.current < |w.threads|
    ensures DecideStep(w, now).res.mutexes == Pass(w, 0, now, None).0.res.mutexes
  {
    hide Pass;
  }

  lemma LookTakesMutex(w: World, t: ThreadId, now: Time)
    requires t < |w.threads| && TryWake(w, t, now).1 == Wake
    ensures var r := TryWake(w, t, now).0.res;
      match MutexWanted(w, t)
      case Some(m) => !IsLocked(w.res, m) && m in w.res.mutexes && r.mutexes == Relock(w.res, t, m).mutexes
      case None => r.mutexes == w.res.mutexes
  {}

  /** A decision that lets nobody run leaves all locks as they are. */
  lemma {:induction false} FruitlessPassKeepsLocks(w: World, i: nat, now: Time, next: Option<Time>)
    requires w.current < |w.threads| && i <= |w.threads| && Pass(w, i, now, next).1.Nobody?
    ensures SameLocks(w.res, Pass(w, i, now, next).0.res)
    decreases |w.threads| - i
  {
    hide LookAt;
    if i < |w.threads| {
      var t := Candidate(w, i);
      var (w1, v) := TryWake(w, t, now);
      if w.threads[t].active { SkipSameLocks(w.res, w.threads, t, now); }
      FruitlessPassKeepsLocks(w1, i + 1, now, Sooner(next, v.next));
    }
  }

  /** What may take a mutex away from a thread: its own unlock, or its own wait for a condition. */
  predicate Releases(op: Op, m: nat) { op == UnlockMutex(m) || (op.WaitCondition? && op.m == m) }

  /** What an operation of the current thread makes of a mutex. */
  function MutexAfter(w: World, op: Op, m: nat): Mutex
    requires m in w.res.mutexes
  {
    var x := w.res.mutexes[m];
    if Releases(op, m) then Unlocked(x, w.current).0
    else if op == LockMutex(m) then if HeldByOther(x, w.current) then x.(waiters := x.waiters + 1) else Locked(x, w.current)
    else x
  }

  lemma StepMutex(w: World, op: Op, m: nat)
    requires Enabled(w, op) && !op.Decide? && m in w.res.mutexes
    ensures m in Step(w, op).res.mutexes && Step(w, op).res.mutexes[m] == MutexAfter(w, op, m)
  {
    assert w.current < |w.threads|;
    hide Locked, HeldByOther, Unlocked, Lock, CondWait;
    if op.LockMutex? || op.UnlockMutex? || op.NewMutex? || op.WaitCondition? {
      match op {
        case LockMutex(n) => LockMutexes(w, n);
        case WaitCondition(c, n, deadline) => WaitMutexes(w, c, n, deadline);
        case UnlockMutex(n) =>
        case NewMutex(n, kind) =>
      }
    } else {
      OtherStepsKeepMutexes(w, op);
      hide Step;
    }
  }

  lemma LockMutexes(w: World, m: nat)
    requires m in w.res.mutexes && w.current < |w.threads|
    ensures var x := w.res.mutexes[m];
      Lock(w, m).res.mutexes
        == w.res.mutexes[m := if HeldByOther(x, w.current) then x.(waiters := x.waiters + 1) else Locked(x, w.current)]
  {
    hide Locked, HeldByOther;
  }

  lemma WaitMutexes(w: World, c: Pointer, m: nat, deadline: Option<Time>)
    requires m in w.res.mutexes && c in w.res.conds && w.current < |w.threads|
    ensures CondWait(w, c, m, deadline).res.mutexes == w.res.mutexes[m := Unlocked(w.res.mutexes[m], w.current).0]
  {
    UnlockFails(w.res.mutexes[m], w.current);
    hide Unlocked;
  }

  lemma OtherStepsKeepMutexes(w: World, op: Op)
    requires Enabled(w, op) && !op.Decide? && !op.LockMutex? && !op.UnlockMutex? && !op.NewMutex? && !op.WaitCondition?
    ensures Step(w, op).res.mutexes == w.res.mutexes
  {
    hide SetMutex;
  }

  lemma UnlockFails(x: Mutex, t: ThreadId)
    ensures !Unlocked(x, t).1 ==> Unlocked(x, t).0 == x
  {}

  /** Thread t has a recursive or error-checking mutex, n times. */
  predicate Held(w: World, m: nat, t: ThreadId, n: int) {
    m in w.res.mutexes && var x := w.res.mutexes[m]; x.owner == Some(t) && x.depth == n && x.kind != Normal
  }

  /** One more for the owner's lock of a recursive mutex, one less for its unlock or wait. */
  function Change(w: World, op: Op, m: nat, t: ThreadId): int {
    if w.current != t then 0
    else if Releases(op, m) then -1
    else if op == LockMutex(m) && m in w.res.mutexes && w.res.mutexes[m].kind == Recursive then 1
    else 0
  }

  lemma HeldThroughStep(w: World, op: Op, m: nat, t: ThreadId, n: int)
    requires WorldOk(w) && Enabled(w, op) && Held(w, m, t, n)
    ensures n > 0 && m in Step(w, op).res.mutexes
    ensures if n + Change(w, op, m, t) > 0 then Held(Step(w, op), m, t, n + Change(w, op, m, t))
            else Step(w, op).res.mutexes[m].owner == None
  {
    DepthIsPositive(w, m, t, n);
    hide WorldOk, DecideStep;
    if op.Decide? {
      HeldThroughDecision(w, op.now, m);
    } else {
      StepMutex(w, op, m);
      HeldMutexAfter(w, op, m, t, n);
      hide Step, MutexAfter;
    }
  }

  lemma HeldMutexAfter(w: World, op: Op, m: nat, t: ThreadId, n: int)
    requires m in w.res.mutexes && MutexOk(w.res.mutexes[m]) && Held(w, m, t, n)
    ensures var x, k := MutexAfter(w, op, m), n + Change(w, op, m, t);
      x.kind == w.res.mutexes[m].kind && if k > 0 then x.owner == Some(t) && x.depth == k else x.owner == None
  {}

  /** How often the mutex is held after a run, counting only the owner's locks and releases. */
  function Count(w: World, ops: seq<Op>, m: nat, t: ThreadId, n: int): int
    requires RunOk(w, ops)
    decreases |ops|
  {
    if ops == [] then n else Count(Step(w, ops[0]), ops[1..], m, t, n + Change(w, ops[0], m, t))
  }

  /** The count stays positive throughout the run. */
  predicate NotYetReleased(w: World, ops: seq<Op>, m: nat, t: ThreadId, n: int)
    requires RunOk(w, ops)
    decreases |ops|
  {
    n > 0 && (ops == [] || NotYetReleased(Step(w, ops[0]), ops[1..], m, t, n + Change(w, ops[0], m, t)))
  }

  predicate OwnedThroughout(w: World, ops: seq<Op>, m: nat, t: ThreadId)
    requires RunOk(w, ops)
    decreases |ops|
  {
    && m in w.res.mutexes && w.res.mutexes[m].owner == Some(t)
    && (ops == [] || OwnedThroughout(Step(w, ops[0]), ops[1..], m, t))
  }

  /** Mutual exclusion over any run: a recursive or error-checking mutex stays with its owner,
      whatever other threads and the executor do, exactly as long as the owner has not released it
      as often as it locked it; and its depth is that count. */
  lemma {:induction false} HeldUntilReleased(w: World, ops: seq<Op>, m: nat, t: ThreadId, n: int)
    requires WorldOk(w) && RunOk(w, ops) && Held(w, m, t, n)
    ensures OwnedThroughout(w, ops, m, t) <==> NotYetReleased(w, ops, m, t, n)
    ensures NotYetReleased(w, ops, m, t, n) ==> Held(Run(w, ops), m, t, Count(w, ops, m, t, n))
    decreases |ops|
  {
    hide WorldOk, Step;
    if ops == [] {
      DepthIsPositive(w, m, t, n);
    } else {
      HeldThroughStep(w, ops[0], m, t, n);
      StepKeeps(w, ops[0]);
      if n + Change(w, ops[0], m, t) > 0 {
        HeldUntilReleased(Step(w, ops[0]), ops[1..], m, t, n + Change(w, ops[0], m, t));
      }
    }
  }

  lemma DepthIsPositive(w: World, m: nat, t: ThreadId, n: int)
    requires WorldOk(w) && Held(w, m, t, n)
    ensures n > 0 && MutexOk(w.res.mutexes[m])
  {
    assert MutexOk(w.res.mutexes[m]);
  }

  /** Locking a recursive mutex that is held already neither blocks nor changes hands. */
  lemma LockingNests(w: World, m: nat)
    requires Enabled(w, LockMutex(m)) && w.res.mutexes[m].owner == Some(w.current) && w.res.mutexes[m].kind == Recursive
    ensures var x, w' := w.res.mutexes[m], Step(w, LockMutex(m));
      w'.deciding == w.deciding && w'.threads == w.threads && w'.res.mutexes[m] == x.(depth := x.depth + 1)
  {}

  lemma HeldThroughDecision(w: World, now: Time, m: nat)
    requires WorldOk(w) && w.deciding && m in w.res.mutexes && w.res.mutexes[m].owner.Some?
    ensures m in DecideStep(w, now).res.mutexes && DecideStep(w, now).res.mutexes[m] == w.res.mutexes[m]
  {
    hide WorldOk, LookAt;
    DecideNotCrashed(w, now);
    match Pass(w, 0, now, None).1
    case Chosen(_) => WokenThreadOwnsItsMutex(w, now);
    case Nobody(_) => FruitlessPassKeepsLocks(w, 0, now, None);
    case Crashed =>
  }

  lemma DecideNotCrashed(w: World, now: Time)
    requires WorldOk(w) && w.deciding
    ensures w.current < |w.threads| && !Pass(w, 0, now, None).1.Crashed?
  {
    DecideQueues(w, now);
  }

  // ---- Semaphores are conserved ----

  function Posted(op: Op, s: Pointer): nat { if op == PostSemaphore(s) then 1 else 0 }

  function Positive(value: int): nat { if value > 0 then value else 0 }

  /** A unit of the semaphore goes to whoever finds it positive and to a waiter that is woken. */
  function Acquired(w: World, op: Op, s: Pointer): nat
    requires Enabled(w, op)
  {
    match op
    case WaitSemaphore(s', _) => if s' == s && s in w.res.sems && w.res.sems[s].value > 0 then 1 else 0
    case Decide(now) =>
      var (w', d) := Pass(w, 0, now, None);
      if d.Chosen? && d.thread < |w.threads| && w.threads[d.thread].block == OnSemaphore(s) && s in w.res.sems then 1 else 0
    case _ => 0
  }

  lemma SkippedPassKeepsSemaphores(w: World, i: nat, now: Time, next: Option<Time>)
    requires w.current < |w.threads| && i <= |w.threads| && !Pass(w, i, now, next).1.Chosen?
    requires SuspensionsOk(w) && SemaphoresOk(w) && RefsOk(w) && ConditionsOk(w)
    ensures Pass(w, i, now, next).0.res.sems == w.res.sems
    decreases |w.threads| - i
  {
    if i < |w.threads| {
      hide LookAt, SuspensionsOk, SemaphoresOk, RefsOk, ConditionsOk;
      var t := Candidate(w, i);
      LookKeeps(w, t, now);
      var (w1, v) := TryWake(w, t, now);
      if w.threads[t].active { SkipSameLocks(w.res, w.threads, t, now); }
      SkippedPassKeepsSemaphores(w1, i + 1, now, Sooner(next, v.next));
    }
  }

  lemma LookTakesSemaphore(w: World, t: ThreadId, now: Time, s: Pointer)
    requires t < |w.threads| && TryWake(w, t, now).1 == Wake && s in w.res.sems
    ensures var sems := TryWake(w, t, now).0.res.sems;
      && s in sems
      && sems[s].value == w.res.sems[s].value - (if w.threads[t].block == OnSemaphore(s) then 1 else 0)
      && (w.threads[t].block == OnSemaphore(s) ==> w.res.sems[s].value > 0)
  {}

  lemma ContinueSemaphores(w: World, now: Time)
    requires ContextsOk(w) && w.deciding
    ensures DecideStep(w, now).res.sems == Pass(w, 0, now, None).0.res.sems
  {
    DecideWaits(w, now);
  }

  lemma DecideConserves(w: World, now: Time, s: Pointer)
    requires WorldOk(w) && w.deciding && s in w.res.sems
    ensures s in DecideStep(w, now).res.sems
    ensures DecideStep(w, now).res.sems[s].value == w.res.sems[s].value - Acquired(w, Decide(now), s)
    ensures Acquired(w, Decide(now), s) <= Positive(w.res.sems[s].value)
  {
    var (w1, d) := Pass(w, 0, now, None);
    ContinueSemaphores(w, now);
    hide ContextsOk, SuspensionsOk, SemaphoresOk, RefsOk, ConditionsOk, DecideStep;
    if d.Chosen? {
      var at := ChoiceComesFromLook(w, 0, now, None);
      LookTakesSemaphore(at, d.thread, now, s);
      hide Pass, TryWake;
    } else {
      SkippedPassKeepsSemaphores(w, 0, now, None);
      hide Pass;
    }
  }

  lemma OtherStepsKeepSemaphores(w: World, op: Op)
    requires Enabled(w, op) && !op.Decide? && !op.WaitSemaphore? && !op.PostSemaphore? && !op.NewSemaphore?
    ensures Step(w, op).res.sems == w.res.sems
  {
    hide Locked, Unlocked, HeldByOther;
    if IsResourceOp(op) { ResourceOpSemaphores(w, op); }
  }

  lemma SemaphoreStepConserves(w: World, op: Op, s: Pointer)
    requires Enabled(w, op) && s in w.res.sems && (op.WaitSemaphore? || op.PostSemaphore? || op.NewSemaphore?)
    ensures s in Step(w, op).res.sems && Acquired(w, op, s) <= Positive(w.res.sems[s].value)
    ensures Step(w, op).res.sems[s].value == w.res.sems[s].value + Posted(op, s) - Acquired(w, op, s)
  {
    match op {
      case WaitSemaphore(s', block) => WaitTakes(w, s', block, s);
      case PostSemaphore(s') =>
      case NewSemaphore(s', value) =>
    }
  }

  lemma WaitTakes(w: World, s': Pointer, block: bool, s: Pointer)
    requires w.current < |w.threads| && s in w.res.sems
    ensures var sems := SemWait(w, s', block).res.sems;
      && s in sems
      && sems[s].value == w.res.sems[s].value - (if s' == s && w.res.sems[s].value > 0 then 1 else 0)
  {
    hide YieldOn;
    if s' in w.res.sems {
      var x := w.res.sems[s'];
      YieldResources(w, SetSemaphore(w.res, s', x.(waiting := x.waiting + {w.current})), OnSemaphore(s'));
    }
  }

  lemma StepConserves(w: World, op: Op, s: Pointer)
    requires WorldOk(w) && Enabled(w, op) && s in w.res.sems
    ensures s in Step(w, op).res.sems && Acquired(w, op, s) <= Positive(w.res.sems[s].value)
    ensures Step(w, op).res.sems[s].value == w.res.sems[s].value + Posted(op, s) - Acquired(w, op, s)
  {
    if op.Decide? {
      DecideConserves(w, op.now, s);
    } else if op.WaitSemaphore? || op.PostSemaphore? || op.NewSemaphore? {
      SemaphoreStepConserves(w, op, s);
    } else {
      OtherStepsKeepSemaphores(w, op);
    }
  }

  function PostedIn(ops: seq<Op>, s: Pointer): nat {
    if ops == [] then 0 else Posted(ops[0], s) + PostedIn(ops[1..], s)
  }

  function AcquiredIn(w: World, ops: seq<Op>, s: Pointer): nat
    requires RunOk(w, ops)
    decreases |ops|
  {
    if ops == [] then 0 else Acquired(w, ops[0], s) + AcquiredIn(Step(w, ops[0]), ops[1..], s)
  }

  /** Over every run, the semaphore's value plus the units acquired is its value at the start plus
      the posts, and no unit is acquired that is not there; and its waiting set is exactly the threads
      blocked on it, suspended ones included. */
  lemma {:induction false} SemaphoresAreConserved(w: World, ops: seq<Op>, s: Pointer)
    requires WorldOk(w) && RunOk(w, ops) && s in w.res.sems
    ensures var w' := Run(w, ops);
      && s in w'.res.sems
      && w'.res.sems[s].value + AcquiredIn(w, ops, s) == w.res.sems[s].value + PostedIn(ops, s)
      && (w.res.sems[s].value >= 0 ==> w'.res.sems[s].value >= 0)
      && (forall t :: t in w'.res.sems[s].waiting <==> WaiterOk(w', s, t))
    decreases |ops|
  {
    if ops != [] {
      StepConserves(w, ops[0], s);
      StepKeeps(w, ops[0]);
      SemaphoresAreConserved(Step(w, ops[0]), ops[1..], s);
    }
  }

  // ---- Bounded waiting ----

  lemma {:induction false} ReadyThreadStopsThePass(w: World, i: nat, now: Time, next: Option<Time>, t: ThreadId)
    requires w.current < |w.threads| && i <= |w.threads| && t < |w.threads| && i <= Place(w, t)
    requires w.threads[t].active && w.threads[t].block == NotBlocked && !Pass(w, i, now, next).1.Crashed?
    ensures var d := Pass(w, i, now, next).1;
      d.Chosen? && d.thread < |w.threads| && Place(w, d.thread) <= Place(w, t)
    decreases |w.threads| - i
  {
    PlaceOfCandidate(w, t);
    var u := Candidate(w, i);
    PlaceOfCandidate(w, u);
    var (w1, v) := TryWake(w, u, now);
    if v.Skip? { ReadyThreadStopsThePass(w1, i + 1, now, Sooner(next, v.next), t); }
  }

  /** Decisions in arbitrary successive worlds, each made for the thread chosen before it. */
  predicate Decisions(ws: seq<World>, chosen: seq<ThreadId>, clock: seq<Time>, n: nat) {
    && |chosen| == |ws| + 1 && |clock| == |ws|
    && forall k | 0 <= k < |ws| :: DecisionAt(ws[k], chosen[k], chosen[k + 1], clock[k], n)
  }

  predicate DecisionAt(w: World, before: ThreadId, after: ThreadId, now: Time, n: nat) {
    && |w.threads| == n && w.current == before && before < n
    && Pass(w, 0, now, None).1 == Chosen(after)
  }

  /** An active thread that stays unblocked runs after at most one decision more than its distance
      from the current thread, whatever the other threads do in between. */
  lemma {:induction false} ReadyThreadRunsSoon(
    ws: seq<World>, chosen: seq<ThreadId>, clock: seq<Time>, n: nat, t: ThreadId) returns (k: nat)
    requires Decisions(ws, chosen, clock, n) && t < n && ws != [] && ws[0].current < |ws[0].threads|
    requires forall i | 0 <= i < |ws| :: t < |ws[i].threads| && ws[i].threads[t].active && ws[i].threads[t].block == NotBlocked
    requires |ws| > Place(ws[0], t)
    ensures 1 <= k <= Place(ws[0], t) + 1 && chosen[k] == t
    decreases |ws|
  {
    assert DecisionAt(ws[0], chosen[0], chosen[1], clock[0], n);
    ReadyThreadStopsThePass(ws[0], 0, clock[0], None, t);
    PlaceOfCandidate(ws[0], chosen[1]);
    PlaceOfCandidate(ws[0], t);
    if chosen[1] == t { return 1; }
    assert Place(ws[0], chosen[1]) < Place(ws[0], t);
    assert DecisionAt(ws[1], chosen[1], chosen[2], clock[1], n);
    assert Place(ws[1], t) < Place(ws[0], t);
    assert Decisions(ws[1..], chosen[1..], clock[1..], n) by {
      forall j | 0 <= j < |ws| - 1 ensures DecisionAt(ws[1..][j], chosen[1..][j], chosen[1..][j + 1], clock[1..][j], n) {
        assert DecisionAt(ws[j + 1], chosen[j + 1], chosen[j + 2], clock[j + 1], n);
      }
    }
    var j := ReadyThreadRunsSoon(ws[1..], chosen[1..], clock[1..], n, t);
    return j + 1;
  }

  // ---- Registers survive while other threads run ----

  /** A stored context is untouched until its thread is switched to. */
  lemma StoredContextStays(w: World, op: Op, t: ThreadId)
    requires ContextsOk(w) && Enabled(w, op) && t < |w.threads| && t != w.current
    ensures t < |Step(w, op).threads|
    ensures if Step(w, op).current == t then Some(Step(w, op).cpu) == w.threads[t].guest
            else Step(w, op).threads[t].guest == w.threads[t].guest
  {
    if op.Decide? { ContextThroughDecision(w, op.now, t); } else { ContextThroughStep(w, op, t); }
  }

  lemma ContextThroughStep(w: World, op: Op, t: ThreadId)
    requires Enabled(w, op) && !op.Decide? && t < |w.threads| && t != w.current
    ensures var w' := Step(w, op); t < |w'.threads| && w'.current == w.current && w'.threads[t].guest == w.threads[t].guest
  {
    hide Unlocked;
    if IsResourceOp(op) {
      var b := PlainShape(w, op);
      hide Step;
    }
  }

  lemma ContextThroughDecision(w: World, now: Time, t: ThreadId)
    requires ContextsOk(w) && w.deciding && t < |w.threads| && t != w.current
    ensures var w' := DecideStep(w, now);
      t < |w'.threads| && if w'.current == t then Some(w'.cpu) == w.threads[t].guest else w'.threads[t].guest == w.threads[t].guest
  {
    PassContexts(w, 0, now, None);
    hide ContextsOk, Pass;
    var w1 := Pass(w, 0, now, None).0;
    assert SameContext(w.threads[t], w1.threads[t]);
  }

  predicate AwayThroughout(w: World, ops: seq<Op>, t: ThreadId)
    requires RunOk(w, ops)
    decreases |ops|
  {
    w.current != t && (ops == [] || AwayThroughout(Step(w, ops[0]), ops[1..], t))
  }

  lemma {:induction false} AwayContextStays(w: World, ops: seq<Op>, t: ThreadId)
    requires ContextsOk(w) && RunOk(w, ops) && t < |w.threads| && AwayThroughout(w, ops, t)
    ensures var w' := Run(w, ops);
      ContextsOk(w') && t < |w'.threads| && t != w'.current && w'.threads[t].guest == w.threads[t].guest
    decreases |ops|
  {
    if ops != [] {
      StoredContextStays(w, ops[0], t);
      StepContexts(w, ops[0]);
      AwayContextStays(Step(w, ops[0]), ops[1..], t);
    }
  }

  /** A thread that leaves the CPU at a decision, stays away for any number of steps and is then
      switched back in sees exactly the registers it left with. */
  lemma RegistersSurvive(w: World, now: Time, ops: seq<Op>, back: Op, t: ThreadId)
    requires ContextsOk(w) && w.deciding && w.current == t
    requires DecideStep(w, now).current != t && RunOk(DecideStep(w, now), ops)
    requires AwayThroughout(DecideStep(w, now), ops, t)
    requires Enabled(Run(DecideStep(w, now), ops), back) && Step(Run(DecideStep(w, now), ops), back).current == t
    ensures Step(Run(DecideStep(w, now), ops), back).cpu == w.cpu
  {
    var w1 := DecideStep(w, now);
    PassContexts(w, 0, now, None);
    DecideContexts(w, now);
    assert t < |w1.threads| && w1.threads[t].guest == Some(w.cpu);
    AwayContextStays(w1, ops, t);
    StoredContextStays(Run(w1, ops), back, t);
  }
}
