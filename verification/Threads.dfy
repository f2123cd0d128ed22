/** The cooperative threads of the emulator and what they can block on.

    A `World` is everything the executor and the scheduler look at: the threads with their stored
    guest and host contexts, the CPU's registers, and the mutexes, semaphores, condition variables
    and file locks. Each operation a running thread can perform is one function from worlds to
    worlds; blocking operations end with the executor deciding who runs next. */
module Threads {

  datatype Option<T> = None | Some(value: T)

  type ThreadId = nat
  type Time = nat
  type Registers = map<nat, int>
  type Pointer = int

  datatype Block =
    | NotBlocked
    | Sleeping(until: Time)
    | OnMutex(mutex: nat)
    | OnSemaphore(sem: Pointer)
    | OnCondition(cond: Pointer, deadline: Option<Time>)
    | Joining(joinee: ThreadId, result: Pointer)
    | OnFile(file: Pointer)
    | Suspended(count: nat, inner: Block)

  /** What the thread waits for once any suspension is lifted. */
  function Inner(b: Block): Block { if b.Suspended? then b.inner else b }

  /** `guest` and `host` are the stored CPU context and coroutine; `inWait` is the condition wait
      the thread's host code is in the middle of; `stack` is where its stack begins. A coroutine is
      named after its thread. */
  datatype Thread = Thread(
    active: bool, block: Block, returnValue: Option<int>, guest: Option<Registers>, host: Option<ThreadId>,
    inWait: Option<Pointer>, stack: Option<Pointer>)

  datatype MutexKind = Normal | ErrorCheck | Recursive
  datatype Mutex = Mutex(kind: MutexKind, owner: Option<ThreadId>, depth: nat, waiters: nat, phantom: map<ThreadId, nat>)
  datatype Semaphore = Semaphore(value: int, waiting: set<ThreadId>)
  datatype Condition = Condition(
    waiting: seq<ThreadId>, waking: seq<ThreadId>, mutex: Option<nat>, timedOut: set<ThreadId>)
  datatype FileLock = FileLock(owner: Option<ThreadId>, depth: nat)

  /** What threads wait for, and the guest memory join results are written to. */
  datatype Resources = Resources(
    mutexes: map<nat, Mutex>, sems: map<Pointer, Semaphore>, conds: map<Pointer, Condition>,
    files: map<Pointer, FileLock>, mem: map<Pointer, int>)

  /** `running` is the coroutine the executor holds, None once it has returned; `deciding` says
      that control is with the executor rather than with the current thread. */
  datatype World = World(
    threads: seq<Thread>, current: ThreadId, cpu: Registers, running: Option<ThreadId>, deciding: bool, res: Resources)

  function SetBlock(w: World, t: ThreadId, b: Block): World
    requires t < |w.threads|
  {
    w.(threads := w.threads[t := w.threads[t].(block := b)])
  }

  /** The current thread hands control to the executor until `b` is over. */
  function YieldOn(w: World, b: Block): World
    requires w.current < |w.threads|
  {
    SetBlock(w, w.current, b).(deciding := true)
  }

  // ---- Mutexes ----

  predicate IsLocked(r: Resources, m: nat) { m in r.mutexes && r.mutexes[m].owner.Some? }

  function SetMutex(w: World, m: nat, x: Mutex): World { w.(res := w.res.(mutexes := w.res.mutexes[m := x])) }

  predicate HeldByOther(x: Mutex, t: ThreadId) { x.owner.Some? && x.owner.value != t }

  /** Locking a mutex no other thread holds. Self-locking a normal one is granted as a phantom
      lock that an unlock consumes first; an error-checking one refuses. */
  function Locked(x: Mutex, t: ThreadId): Mutex {
    if x.owner.None? then x.(owner := Some(t), depth := 1)
    else
      match x.kind
      case Normal => x.(phantom := x.phantom[t := if t in x.phantom then x.phantom[t] + 1 else 1])
      case ErrorCheck => x
      case Recursive => x.(depth := x.depth + 1)
  }

  function Lock(w: World, m: nat): World
    requires m in w.res.mutexes && w.current < |w.threads|
  {
    var x := w.res.mutexes[m];
    if HeldByOther(x, w.current) then YieldOn(SetMutex(w, m, x.(waiters := x.waiters + 1)), OnMutex(m))
    else SetMutex(w, m, Locked(x, w.current))
  }

  /** The new mutex and whether unlocking succeeded. */
  function Unlocked(x: Mutex, t: ThreadId): (Mutex, bool) {
    if t in x.phantom && x.phantom[t] > 0 then
      (x.(phantom := if x.phantom[t] == 1 then x.phantom - {t} else x.phantom[t := x.phantom[t] - 1]), true)
    else if x.owner.None? then (x, false)
    else if x.owner.value != t && x.kind != Normal then (x, false)
    else if x.depth <= 1 then (x.(owner := None, depth := 0), true)
    else (x.(depth := x.depth - 1), true)
  }

  function Unlock(w: World, m: nat): World
    requires m in w.res.mutexes
  {
    SetMutex(w, m, Unlocked(w.res.mutexes[m], w.current).0)
  }

  /** The scheduler relocks a mutex for a thread it wakes. */
  function Relock(r: Resources, t: ThreadId, m: nat): Resources
    requires m in r.mutexes
  {
    var x := r.mutexes[m];
    r.(mutexes := r.mutexes[m := x.(owner := Some(t), depth := 1, waiters := if x.waiters > 0 then x.waiters - 1 else 0)])
  }

  // ---- Semaphores ----

  function SetSemaphore(r: Resources, s: Pointer, x: Semaphore): Resources { r.(sems := r.sems[s := x]) }

  function SemWait(w: World, s: Pointer, block: bool): World
    requires w.current < |w.threads|
  {
    if s !in w.res.sems then w
    else
      var x := w.res.sems[s];
      if x.value > 0 then w.(res := SetSemaphore(w.res, s, x.(value := x.value - 1)))
      else if !block then w
      else YieldOn(w.(res := SetSemaphore(w.res, s, x.(waiting := x.waiting + {w.current}))), OnSemaphore(s))
  }

  function SemPost(w: World, s: Pointer): World {
    if s !in w.res.sems then w
    else w.(res := SetSemaphore(w.res, s, w.res.sems[s].(value := w.res.sems[s].value + 1)))
  }

  // ---- Condition variables ----

  function SetCondition(w: World, c: Pointer, x: Condition): World { w.(res := w.res.(conds := w.res.conds[c := x])) }

  /** Unlocks the mutex and queues up; without holding the mutex nothing happens. */
  function CondWait(w: World, c: Pointer, m: nat, deadline: Option<Time>): World
    requires w.current < |w.threads| && m in w.res.mutexes && c in w.res.conds
  {
    if !Unlocked(w.res.mutexes[m], w.current).1 then w
    else
      var x := w.res.conds[c];
      var w1 := SetCondition(Unlock(w, m), c, x.(waiting := x.waiting + [w.current], mutex := Some(m)));
      w1.(threads := w.threads[w.current := w.threads[w.current].(block := OnCondition(c, deadline), inWait := Some(c))],
          deciding := true)
  }

  function CondSignal(w: World, c: Pointer): World
    requires c in w.res.conds
  {
    var x := w.res.conds[c];
    if x.waiting == [] then w
    else SetCondition(w, c, x.(waiting := x.waiting[1..], waking := x.waking + [x.waiting[0]]))
  }

  function CondBroadcast(w: World, c: Pointer): World
    requires c in w.res.conds
  {
    var x := w.res.conds[c];
    SetCondition(w, c, x.(waiting := [], waking := x.waking + x.waiting))
  }

  // ---- File locks ----

  function SetFile(r: Resources, f: Pointer, x: FileLock): Resources { r.(files := r.files[f := x]) }

  function LockFile(w: World, f: Pointer): World
    requires w.current < |w.threads| && f in w.res.files
  {
    var x := w.res.files[f];
    if x.owner.Some? && x.owner.value != w.current then YieldOn(w, OnFile(f))
    else w.(res := SetFile(w.res, f, FileLock(Some(w.current), x.depth + 1)))
  }

  function UnlockFile(w: World, f: Pointer): World
    requires f in w.res.files && w.res.files[f].depth > 0
  {
    var x := w.res.files[f];
    w.(res := SetFile(w.res, f, FileLock(if x.depth == 1 then None else x.owner, x.depth - 1)))
  }

  // ---- Threads themselves ----

  /** A new thread starts with a context and a stack of its own and a coroutine that has not run
      yet. */
  function Spawn(w: World, start: Registers, stack: Pointer): World {
    w.(threads := w.threads + [Thread(true, NotBlocked, None, Some(start), Some(|w.threads|), None, Some(stack))])
  }

  function Finish(w: World, result: int): World
    requires w.current < |w.threads|
  {
    w.(threads := w.threads[w.current := w.threads[w.current].(active := false, returnValue := Some(result), stack := None)],
       running := None, deciding := true)
  }

  function Suspend(w: World, t: ThreadId): World
    requires t < |w.threads|
  {
    var b := w.threads[t].block;
    if b.Suspended? then SetBlock(w, t, b.(count := b.count + 1))
    else if t == w.current then YieldOn(w, Suspended(1, b))
    else SetBlock(w, t, Suspended(1, b))
  }

  function Resume(w: World, t: ThreadId): World
    requires t < |w.threads|
  {
    var b := w.threads[t].block;
    if b.Suspended? && b.count > 1 then SetBlock(w, t, b.(count := b.count - 1))
    else if b.Suspended? then SetBlock(w, t, b.inner)
    else w
  }

  // ---- Switching contexts ----

  /** Swapping the CPU and the coroutine over to another thread. */
  function SwitchTo(w: World, t: ThreadId): World
    requires t < |w.threads| && w.current < |w.threads| && t != w.current
    requires w.threads[t].guest.Some?
  {
    var left := w.threads[w.current].(guest := Some(w.cpu), host := w.running);
    var next := w.threads[t].(guest := None, host := None);
    w.(threads := w.threads[w.current := left][t := next], cpu := w.threads[t].guest.value,
       running := w.threads[t].host, current := t)
  }

  /** The chosen thread continues; a condition wait it was in reports whether it timed out. */
  function Continue(w: World): World
    requires w.current < |w.threads|
  {
    var x := w.threads[w.current];
    var w1 := w.(deciding := false);
    if x.inWait.Some? && x.inWait.value in w.res.conds then
      var c := w.res.conds[x.inWait.value];
      SetCondition(w1.(threads := w.threads[w.current := x.(inWait := None)]), x.inWait.value,
                   c.(timedOut := c.timedOut - {w.current}))
    else w1
  }

  // ---- The scheduler's pass over the threads ----

  /** What one look at a candidate comes to; `Panic` stands for a failed unwrap or assertion. */
  datatype Verdict = Wake | Skip(next: Option<Time>) | Panic

  /** The candidate's next block, the resources after fulfilling what it waited for, and the
      verdict. */
  datatype Look = Look(block: Block, res: Resources, verdict: Verdict)

  function Without(q: seq<ThreadId>, t: ThreadId): seq<ThreadId> {
    if q == [] then [] else (if q[0] == t then [] else [q[0]]) + Without(q[1..], t)
  }

  function LookMutex(r: Resources, t: ThreadId, m: nat): Look {
    if IsLocked(r, m) then Look(OnMutex(m), r, Skip(None))
    else if m !in r.mutexes then Look(OnMutex(m), r, Panic)
    else Look(NotBlocked, Relock(r, t, m), Wake)
  }

  function LookSemaphore(r: Resources, t: ThreadId, s: Pointer): Look {
    if s !in r.sems then Look(NotBlocked, r, Wake)
    else
      var x := r.sems[s];
      if x.value > 0 then Look(NotBlocked, SetSemaphore(r, s, Semaphore(x.value - 1, x.waiting - {t})), Wake)
      else Look(OnSemaphore(s), r, Skip(None))
  }

  /** A signalled thread at the head of the queue is woken once the mutex is free. A timed-out
      one leaves the queues and takes the mutex or starts waiting for it. */
  function LookCondition(r: Resources, t: ThreadId, c: Pointer, deadline: Option<Time>, now: Time): Look {
    var stay := OnCondition(c, deadline);
    if c !in r.conds || r.conds[c].mutex.None? || r.conds[c].mutex.value !in r.mutexes then Look(stay, r, Panic)
    else
      var x, m := r.conds[c], r.conds[c].mutex.value;
      if x.waking != [] && x.waking[0] == t && !IsLocked(r, m) then
        Look(NotBlocked, Relock(r.(conds := r.conds[c := x.(waking := x.waking[1..])]), t, m), Wake)
      else if deadline.None? then Look(stay, r, Skip(None))
      else if now < deadline.value then Look(stay, r, Skip(deadline))
      else if t in x.timedOut then Look(stay, r, Panic)
      else
        var x' := x.(timedOut := x.timedOut + {t}, waking := Without(x.waking, t), waiting := Without(x.waiting, t));
        var r' := r.(conds := r.conds[c := x']);
        if IsLocked(r, m) then Look(OnMutex(m), r', Skip(None)) else Look(NotBlocked, Relock(r', t, m), Wake)
  }

  function LookJoin(r: Resources, threads: seq<Thread>, j: ThreadId, result: Pointer): Look {
    if j < |threads| && threads[j].active then Look(Joining(j, result), r, Skip(None))
    else
      var value := if j < |threads| && threads[j].returnValue.Some? then threads[j].returnValue.value else 0;
      Look(NotBlocked, if result == 0 then r else r.(mem := r.mem[result := value]), Wake)
  }

  function LookFile(r: Resources, t: ThreadId, f: Pointer): Look {
    if f !in r.files then Look(OnFile(f), r, Panic)
    else if r.files[f].depth > 0 then Look(OnFile(f), r, Skip(None))
    else if r.files[f].owner.Some? then Look(OnFile(f), r, Panic)
    else Look(NotBlocked, SetFile(r, f, FileLock(Some(t), 1)), Wake)
  }

  function LookAt(r: Resources, threads: seq<Thread>, t: ThreadId, now: Time): Look
    requires t < |threads|
  {
    match threads[t].block
    case NotBlocked => Look(NotBlocked, r, Wake)
    case Sleeping(until) => if until <= now then Look(NotBlocked, r, Wake) else Look(Sleeping(until), r, Skip(Some(until)))
    case OnMutex(m) => LookMutex(r, t, m)
    case OnSemaphore(s) => LookSemaphore(r, t, s)
    case OnCondition(c, deadline) => LookCondition(r, t, c, deadline, now)
    case Joining(j, result) => LookJoin(r, threads, j, result)
    case OnFile(f) => LookFile(r, t, f)
    case Suspended(count, inner) => Look(threads[t].block, r, if count > 0 then Skip(None) else Panic)
  }

  /** Looks at one candidate, fulfilling what it waits for at once if that is possible. */
  function TryWake(w: World, t: ThreadId, now: Time): (World, Verdict)
    requires t < |w.threads|
  {
    if !w.threads[t].active then (w, Skip(None))
    else
      var k := LookAt(w.res, w.threads, t, now);
      (SetBlock(w, t, k.block).(res := k.res), k.verdict)
  }

  function Sooner(a: Option<Time>, b: Option<Time>): Option<Time> {
    if a.None? then b else if b.None? then a else Some(if a.value <= b.value then a.value else b.value)
  }

  /** The thread looked at in the i-th place, starting after the current one and wrapping. */
  function Candidate(w: World, i: nat): ThreadId
    requires w.current < |w.threads| && i < |w.threads|
  {
    if w.current + 1 + i < |w.threads| then w.current + 1 + i else w.current + 1 + i - |w.threads|
  }

  datatype Decision = Chosen(thread: ThreadId) | Nobody(next: Option<Time>) | Crashed

  /** One pass from the i-th place on. Candidates that cannot run are left behind, possibly moved
      from a timed-out condition to its mutex. */
  function Pass(w: World, i: nat, now: Time, next: Option<Time>): (r: (World, Decision))
    requires w.current < |w.threads| && i <= |w.threads|
    ensures |r.0.threads| == |w.threads| && r.0.current == w.current
    decreases |w.threads| - i
  {
    if i == |w.threads| then (w, Nobody(next))
    else
      var t := Candidate(w, i);
      var (w1, v) := TryWake(w, t, now);
      match v
      case Wake => (w1, Chosen(t))
      case Panic => (w1, Crashed)
      case Skip(a) => Pass(w1, i + 1, now, Sooner(next, a))
  }
}
