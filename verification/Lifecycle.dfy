/** The life of a 64-bit application: UIApplicationMain hands control to guest callbacks one after
    the other, each returning into a host stub that starts the next, and in the end to the caller
    of UIApplicationMain. Inside the callbacks, messages to guest methods are transfers whose
    continuations are kept on a stack. */
module Lifecycle {

  datatype Option<T> = None | Some(value: T)

  type Addr = nat

  /** Return stubs; all of them are written before the program starts. */
  datatype Stubs = Stubs(methodReturn: Addr, nibReturn: Addr, launchReturn: Addr, activeReturn: Addr, applicationReturn: Addr) {
    predicate Distinct() {
      && methodReturn != nibReturn && methodReturn != launchReturn && methodReturn != activeReturn
      && methodReturn != applicationReturn && nibReturn != launchReturn && nibReturn != activeReturn
      && nibReturn != applicationReturn && launchReturn != activeReturn && launchReturn != applicationReturn
      && activeReturn != applicationReturn
    }
  }

  /** Which callbacks the guest's view controller and application delegate implement, and where. */
  datatype Methods = Methods(awake: Option<Addr>, launch: Option<Addr>, active: Option<Addr>)

  /** What UIApplicationMain creates; there need be no view controller. */
  datatype Objects = Objects(application: nat, delegate: nat, viewController: Option<nat>)

  datatype Runtime = Runtime(
    x0: nat, x1: nat, x2: nat, x3: nat, lr: Addr, pc: Addr,
    returnPcs: seq<Addr>, transfer: Option<Addr>, launchReturnPc: Option<Addr>,
    dispatched: bool, pendingActive: bool, awakeDone: bool,
    application: Option<nat>, delegate: Option<nat>, viewController: Option<nat>)

  datatype Outcome = Ok(r: Runtime) | Err

  /** The host functions; what they get from allocating objects and selectors is part of the call,
      None standing for a failure. */
  datatype Symbol =
    | GuestMethodReturn
    | NibAwakeReturn(launchSelector: Option<nat>)
    | ApplicationLaunchReturn(activeSelector: Option<nat>)
    | ApplicationActiveReturn
    | ApplicationReturn
    | UIApplicationMain(delegateFound: bool, objects: Option<Objects>, selector: Option<nat>)
    | Send(address: Addr)
    | Other(result: nat)

  // ---- The host functions ----

  function ReturnValue(r: Runtime, v: nat): Runtime { r.(x0 := v) }

  /** A message to a method the guest implements. */
  function Transferred(S: Stubs, r: Runtime, address: Addr): Runtime {
    r.(returnPcs := r.returnPcs + [r.lr], lr := S.methodReturn, transfer := Some(address))
  }

  function NibAwake(S: Stubs, M: Methods, r: Runtime, selector: Option<nat>): Outcome {
    if r.delegate.None? || r.application.None? || M.launch.None? || selector.None? then Err
    else Ok(r.(awakeDone := true, x0 := r.delegate.value, x1 := selector.value, x2 := r.application.value, x3 := 0,
               lr := S.launchReturn, pendingActive := true, transfer := M.launch))
  }

  function LaunchReturned(S: Stubs, M: Methods, r: Runtime, selector: Option<nat>): Outcome {
    if r.delegate.Some? && r.application.Some? && M.active.Some? then
      if selector.None? then Err
      else Ok(r.(pendingActive := false, x0 := r.delegate.value, x1 := selector.value, x2 := r.application.value,
                 lr := S.activeReturn, transfer := M.active))
    else Ok(r.(pendingActive := false, lr := S.applicationReturn))
  }

  /** The application's objects are there, and the caller is remembered. */
  function Bootstrapped(r: Runtime, o: Objects, application: nat): Runtime {
    r.(application := Some(application), dispatched := true, delegate := Some(o.delegate),
       viewController := if o.viewController.Some? then o.viewController else r.viewController, launchReturnPc := Some(r.lr))
  }

  function StartAwake(S: Stubs, M: Methods, r: Runtime, selector: Option<nat>): Outcome
    requires r.viewController.Some?
  {
    if selector.None? then Err
    else Ok(r.(x0 := r.viewController.value, x1 := selector.value, x2 := 0, awakeDone := false, lr := S.nibReturn, transfer := M.awake))
  }

  function StartLaunch(S: Stubs, M: Methods, r: Runtime, selector: Option<nat>): Outcome
    requires r.delegate.Some? && r.application.Some?
  {
    if selector.None? then Err
    else
      var r1 := r.(x0 := r.delegate.value, x1 := selector.value, x2 := r.application.value, x3 := 0);
      if M.launch.Some? then
        Ok(r1.(transfer := M.launch, launchReturnPc := Some(r1.lr), pendingActive := true, lr := S.launchReturn))
      else Ok(ReturnValue(r1, 0))
  }

  function Main(S: Stubs, M: Methods, r: Runtime, delegateFound: bool, objects: Option<Objects>, selector: Option<nat>): Outcome {
    if objects.None? then Err
    else
      var application := if r.application.Some? then r.application.value else objects.value.application;
      if !delegateFound || r.dispatched then Ok(ReturnValue(r.(application := Some(application)), 0))
      else
        var r1 := Bootstrapped(r, objects.value, application);
        if r1.viewController.Some? && M.awake.Some? then StartAwake(S, M, r1, selector) else StartLaunch(S, M, r1, selector)
  }

  function Dispatch(S: Stubs, M: Methods, r: Runtime, symbol: Symbol): Outcome {
    match symbol
    case GuestMethodReturn =>
      if r.returnPcs == [] then Err
      else Ok(r.(lr := r.returnPcs[|r.returnPcs| - 1], returnPcs := r.returnPcs[..|r.returnPcs| - 1]))
    case NibAwakeReturn(selector) => NibAwake(S, M, r, selector)
    case ApplicationLaunchReturn(selector) => LaunchReturned(S, M, r, selector)
    case ApplicationActiveReturn => Ok(r.(pendingActive := false, lr := S.applicationReturn))
    case ApplicationReturn =>
      Ok(r.(pendingActive := false, lr := if r.launchReturnPc.Some? then r.launchReturnPc.value else r.lr))
    case UIApplicationMain(found, objects, selector) => Main(S, M, r, found, objects, selector)
    case Send(address) => Ok(Transferred(S, r, address))
    case Other(result) => Ok(ReturnValue(r, result))
  }

  datatype CallResult = Continues(r: Runtime) | Transfers(r: Runtime) | Fails

  /** After a host function, execution goes on at a transfer if there is one, and else at LR. */
  function HostCall(S: Stubs, M: Methods, r: Runtime, symbol: Symbol): CallResult {
    match Dispatch(S, M, r, symbol)
    case Err => Fails
    case Ok(r1) =>
      if r1.transfer.Some? then Transfers(r1.(pc := r1.transfer.value, transfer := None)) else Continues(r1.(pc := r1.lr))
  }

  // ---- The guest ----

  datatype Phase = Awake | Launch | Active | Done

  datatype Kind = Method(resume: Addr) | Callback(phase: Phase, resume: Addr)

  /** Guest code that was transferred to. A function returns to the address in LR at its start;
      `kind` says what for it was transferred to, and where its caller wants to go on. */
  datatype Activation = Activation(returnsTo: Addr, kind: Kind)

  datatype Machine = Machine(r: Runtime, frames: seq<Activation>, history: seq<Phase>)

  datatype Step = Next(m: Machine) | Failed

  datatype Event =
    | SendMessage(lr: Addr, address: Addr)
    | CallHost(lr: Addr, result: nat)
    | CallMain(lr: Addr, delegateFound: bool, objects: Option<Objects>, selector: Option<nat>)
    | Return(x0: nat, selector: Option<nat>)

  /** The host function behind a stub. */
  function SymbolAt(S: Stubs, pc: Addr, selector: Option<nat>): Symbol {
    if pc == S.methodReturn then GuestMethodReturn
    else if pc == S.nibReturn then NibAwakeReturn(selector)
    else if pc == S.launchReturn then ApplicationLaunchReturn(selector)
    else if pc == S.activeReturn then ApplicationActiveReturn
    else ApplicationReturn
  }

  /** Execution at a stub: the host function, and one more if that leads to the last stub. */
  function RunStub(S: Stubs, M: Methods, r: Runtime, selector: Option<nat>): CallResult {
    var c := HostCall(S, M, r, SymbolAt(S, r.pc, selector));
    if c.Continues? && c.r.pc == S.applicationReturn then HostCall(S, M, c.r, ApplicationReturn) else c
  }

  /** Which callback returns to a stub. */
  function PhaseAt(S: Stubs, lr: Addr): Phase {
    if lr == S.nibReturn then Awake else if lr == S.launchReturn then Launch else Active
  }

  function EnterCallback(S: Stubs, m: Machine, r: Runtime, below: seq<Activation>, resume: Addr): Machine {
    var phase := PhaseAt(S, r.lr);
    Machine(r, below + [Activation(r.lr, Callback(phase, resume))], m.history + [phase])
  }

  function Apply(S: Stubs, M: Methods, m: Machine, e: Event): Step {
    match e
    case SendMessage(lr, address) =>
      var c := HostCall(S, M, m.r.(lr := lr), Send(address));
      if c.Fails? then Failed else Next(m.(r := c.r, frames := m.frames + [Activation(c.r.lr, Method(lr))]))
    case CallHost(lr, result) =>
      var c := HostCall(S, M, m.r.(lr := lr), Other(result));
      if c.Fails? then Failed else Next(m.(r := c.r))
    case CallMain(lr, found, objects, selector) =>
      var c := HostCall(S, M, m.r.(lr := lr), UIApplicationMain(found, objects, selector));
      if c.Fails? then Failed
      else if c.Continues? then Next(m.(r := c.r))
      else Next(EnterCallback(S, m, c.r, m.frames, lr))
    case Return(x0, selector) =>
      if m.frames == [] then Failed
      else
        var top, rest := m.frames[|m.frames| - 1], m.frames[..|m.frames| - 1];
        var c := RunStub(S, M, m.r.(x0 := x0, pc := top.returnsTo), selector);
        if c.Fails? then Failed
        else if c.Transfers? then Next(EnterCallback(S, m, c.r, rest, top.kind.resume))
        else Next(Machine(c.r, rest, if top.kind.Callback? then m.history + [Done] else m.history))
  }

  // ---- What every step keeps ----

  function Resumes(frames: seq<Activation>): seq<Addr> {
    if frames == [] then [] else
      var a := frames[|frames| - 1];
      Resumes(frames[..|frames| - 1]) + (if a.kind.Method? then [a.kind.resume] else [])
  }

  function Callbacks(frames: seq<Activation>): seq<Kind> {
    if frames == [] then [] else
      var a := frames[|frames| - 1];
      Callbacks(frames[..|frames| - 1]) + (if a.kind.Callback? then [a.kind] else [])
  }

  function StubFor(S: Stubs, k: Kind): Addr {
    match k
    case Method(_) => S.methodReturn
    case Callback(Awake, _) => S.nibReturn
    case Callback(Launch, _) => S.launchReturn
    case Callback(_, _) => S.activeReturn
  }

  /** What follows a callback; with no callback for becoming active, the application is done. */
  function NextPhase(M: Methods, p: Phase): Phase {
    match p
    case Awake => Launch
    case Launch => if M.active.Some? then Active else Done
    case _ => Done
  }

  /** Phases in order: awake, if the view controller implements it, then launch, then active, if
      the delegate implements it, and done. */
  predicate IsPath(M: Methods, h: seq<Phase>) {
    && (h != [] ==> h[0] == Launch || (h[0] == Awake && M.awake.Some?))
    && forall i | 0 <= i < |h| - 1 :: h[i] != Done && h[i + 1] == NextPhase(M, h[i])
  }

  predicate Running(m: Machine) { m.history != [] && m.history[|m.history| - 1] != Done }

  predicate FrameOk(S: Stubs, a: Activation) {
    && a.returnsTo == StubFor(S, a.kind) && (a.kind.Method? ==> a.kind.resume != S.applicationReturn)
    && (a.kind.Callback? ==> a.kind.phase != Done)
  }

  predicate Inv(S: Stubs, M: Methods, m: Machine) {
    && m.r.transfer.None? && m.r.returnPcs == Resumes(m.frames)
    && (forall i | 0 <= i < |m.frames| :: FrameOk(S, m.frames[i]))
    && IsPath(M, m.history) && (m.history != [] ==> m.r.dispatched)
    && Callbacks(m.frames) == CurrentCallback(m)
    && (Running(m) ==> m.r.launchReturnPc.Some? && m.r.delegate.Some? && m.r.application.Some?)
  }

  function CurrentCallback(m: Machine): seq<Kind> {
    if Running(m) && m.r.launchReturnPc.Some? then [Callback(m.history[|m.history| - 1], m.r.launchReturnPc.value)] else []
  }

  /** Guest code does not call from the last return stub. */
  predicate EventOk(S: Stubs, e: Event) { e.SendMessage? ==> e.lr != S.applicationReturn }

  lemma PushFrame(frames: seq<Activation>, a: Activation)
    ensures Resumes(frames + [a]) == Resumes(frames) + (if a.kind.Method? then [a.kind.resume] else [])
    ensures Callbacks(frames + [a]) == Callbacks(frames) + (if a.kind.Callback? then [a.kind] else [])
  {
    assert (frames + [a])[..|frames|] == frames;
  }

  lemma SendKeeps(S: Stubs, M: Methods, m: Machine, lr: Addr, address: Addr)
    requires S.Distinct() && Inv(S, M, m) && lr != S.applicationReturn
    ensures var r := m.r.(lr := S.methodReturn, returnPcs := m.r.returnPcs + [lr], pc := address);
      var m' := m.(r := r, frames := m.frames + [Activation(S.methodReturn, Method(lr))]);
      Apply(S, M, m, SendMessage(lr, address)) == Next(m') && Inv(S, M, m')
  {
    hide Resumes, Callbacks, IsPath;
    PushFrame(m.frames, Activation(S.methodReturn, Method(lr)));
  }

  /** A method returns to where the message was sent from, with its result. */
  lemma MethodReturns(S: Stubs, M: Methods, m: Machine, x0: nat, selector: Option<nat>)
    requires S.Distinct() && Inv(S, M, m) && m.frames != [] && m.frames[|m.frames| - 1].kind.Method?
    ensures var n, resume := |m.frames| - 1, m.frames[|m.frames| - 1].kind.resume;
      var r := m.r.(x0 := x0, lr := resume, pc := resume, returnPcs := m.r.returnPcs[..|m.r.returnPcs| - 1]);
      |m.r.returnPcs| > 0 &&
      Apply(S, M, m, Return(x0, selector)) == Next(m.(r := r, frames := m.frames[..n])) && Inv(S, M, m.(r := r, frames := m.frames[..n]))
  {
    hide IsPath;
    var n := |m.frames| - 1;
    assert FrameOk(S, m.frames[n]);
    assert m.r.returnPcs[..|m.r.returnPcs| - 1] == Resumes(m.frames[..n]);
  }

  lemma PathExtends(M: Methods, h: seq<Phase>, p: Phase)
    requires IsPath(M, h)
    requires if h == [] then p == Launch || (p == Awake && M.awake.Some?)
             else h[|h| - 1] != Done && p == NextPhase(M, h[|h| - 1])
    ensures IsPath(M, h + [p])
  {
    var g := h + [p];
    forall i | 0 <= i < |g| - 1 ensures g[i] != Done && g[i + 1] == NextPhase(M, g[i]) {
      if i < |h| - 1 { assert g[i] == h[i] && g[i + 1] == h[i + 1]; }
    }
  }

  lemma TopCallback(S: Stubs, M: Methods, m: Machine)
    requires Inv(S, M, m) && m.frames != [] && m.frames[|m.frames| - 1].kind.Callback?
    ensures var n, k := |m.frames| - 1, m.frames[|m.frames| - 1].kind;
      && Running(m) && m.r.launchReturnPc == Some(k.resume) && k.phase == m.history[|m.history| - 1]
      && Callbacks(m.frames[..n]) == [] && Resumes(m.frames[..n]) == m.r.returnPcs
      && m.frames[n].returnsTo == StubFor(S, k) && k.phase != Done
  {
    var n := |m.frames| - 1;
    assert FrameOk(S, m.frames[n]);
    var k := m.frames[n].kind;
    assert Callbacks(m.frames) == Callbacks(m.frames[..n]) + [k];
    assert Callbacks(m.frames)[|Callbacks(m.frames[..n])|] == k;
  }

  /** What the last stub and the one before it do. */
  lemma ApplicationEnds(S: Stubs, M: Methods, r: Runtime, selector: Option<nat>)
    requires S.Distinct() && r.transfer.None? && r.launchReturnPc.Some?
    requires r.pc == S.activeReturn || (r.pc == S.launchReturn && M.active.None?)
    ensures RunStub(S, M, r, selector) ==
      Continues(r.(pendingActive := false, lr := r.launchReturnPc.value, pc := r.launchReturnPc.value))
  {}

  lemma LaunchStarts(S: Stubs, M: Methods, r: Runtime, selector: Option<nat>)
    requires S.Distinct() && r.transfer.None? && r.pc == S.nibReturn && r.delegate.Some? && r.application.Some?
    ensures RunStub(S, M, r, selector) ==
      if M.launch.None? || selector.None? then Fails
      else Transfers(r.(awakeDone := true, x0 := r.delegate.value, x1 := selector.value, x2 := r.application.value, x3 := 0,
                        lr := S.launchReturn, pendingActive := true, pc := M.launch.value))
  {}

  lemma ActiveStarts(S: Stubs, M: Methods, r: Runtime, selector: Option<nat>)
    requires S.Distinct() && r.transfer.None? && r.pc == S.launchReturn && r.delegate.Some? && r.application.Some? && M.active.Some?
    ensures RunStub(S, M, r, selector) ==
      if selector.None? then Fails
      else Transfers(r.(pendingActive := false, x0 := r.delegate.value, x1 := selector.value, x2 := r.application.value,
                        lr := S.activeReturn, pc := M.active.value))
  {}

  function AddressOf(M: Methods, p: Phase): Option<Addr> {
    match p case Awake => M.awake case Launch => M.launch case Active => M.active case Done => None
  }

  /** A callback that ends: the next one starts with its receiver, selector and application, or the
      caller of UIApplicationMain goes on. It fails exactly when the launch method is missing after
      awakening, or a selector cannot be made. */
  lemma CallbackReturns(S: Stubs, M: Methods, m: Machine, x0: nat, selector: Option<nat>) returns (next: Phase)
    requires S.Distinct() && Inv(S, M, m) && m.frames != [] && m.frames[|m.frames| - 1].kind.Callback?
    ensures next == NextPhase(M, m.frames[|m.frames| - 1].kind.phase)
    ensures Apply(S, M, m, Return(x0, selector)).Failed? <==> next != Done && (AddressOf(M, next).None? || selector.None?)
    ensures Apply(S, M, m, Return(x0, selector)).Next? ==>
      AfterCallback(S, M, m, Apply(S, M, m, Return(x0, selector)).m, next, x0, selector)
  {
    hide RunStub, HostCall, Dispatch, Resumes, Callbacks, IsPath;
    var n, k := |m.frames| - 1, m.frames[|m.frames| - 1].kind;
    TopCallback(S, M, m);
    next := NextPhase(M, k.phase);
    PathExtends(M, m.history, next);
    var r := m.r.(x0 := x0, pc := m.frames[n].returnsTo);
    PushFrame(m.frames[..n], Activation(StubFor(S, Callback(next, k.resume)), Callback(next, k.resume)));
    match k.phase
    case Awake => LaunchStarts(S, M, r, selector);
    case Launch => if M.active.Some? { ActiveStarts(S, M, r, selector); } else { ApplicationEnds(S, M, r, selector); }
    case Active => ApplicationEnds(S, M, r, selector);
  }

  predicate AfterCallback(S: Stubs, M: Methods, m: Machine, m': Machine, next: Phase, x0: nat, selector: Option<nat>)
    requires m.frames != []
  {
    var n, k := |m.frames| - 1, m.frames[|m.frames| - 1].kind;
    && Inv(S, M, m') && m'.history == m.history + [next] && m'.r.pendingActive == (next == Launch)
    && if next == Done then m'.frames == m.frames[..n] && m'.r.pc == k.resume && m'.r.x0 == x0
       else
         && m'.frames == m.frames[..n] + [Activation(StubFor(S, Callback(next, k.resume)), Callback(next, k.resume))]
         && Some(m'.r.pc) == AddressOf(M, next) && Some(m'.r.x0) == m.r.delegate
         && Some(m'.r.x1) == selector && Some(m'.r.x2) == m.r.application
         && (next == Launch ==> m'.r.x3 == 0 && m'.r.awakeDone)
  }

  lemma HostCallKeeps(S: Stubs, M: Methods, m: Machine, lr: Addr, result: nat)
    requires S.Distinct() && Inv(S, M, m)
    ensures var m' := m.(r := m.r.(lr := lr, x0 := result, pc := lr));
      Apply(S, M, m, CallHost(lr, result)) == Next(m') && Inv(S, M, m')
  {
    hide Resumes, Callbacks, IsPath;
  }

  /** Whether UIApplicationMain starts a callback. */
  predicate Starts(M: Methods, r: Runtime, found: bool, objects: Option<Objects>) {
    && objects.Some? && found && !r.dispatched
    && (M.launch.Some? || (M.awake.Some? && (objects.value.viewController.Some? || r.viewController.Some?)))
  }

  /** Awakening comes first if and only if there is a view controller, new or old, and the guest
      has a method for it. */
  function FirstPhase(M: Methods, r: Runtime, objects: Objects): Phase {
    if (objects.viewController.Some? || r.viewController.Some?) && M.awake.Some? then Awake else Launch
  }

  /** UIApplicationMain either starts the first callback, remembering its caller, or returns 0 to it
      at once. */
  lemma MainKeeps(S: Stubs, M: Methods, m: Machine, lr: Addr, found: bool, objects: Option<Objects>, selector: Option<nat>)
    requires S.Distinct() && Inv(S, M, m)
    ensures var s := Apply(S, M, m, CallMain(lr, found, objects, selector));
      && (s.Failed? <==> objects.None? || (found && !m.r.dispatched && selector.None?))
      && (s.Next? ==> Inv(S, M, s.m) && s.m.r.returnPcs == m.r.returnPcs)
      && (s.Next? && !Starts(M, m.r, found, objects) ==>
            s.m.frames == m.frames && s.m.history == m.history && s.m.r.pc == lr && s.m.r.x0 == 0)
      && (s.Next? && Starts(M, m.r, found, objects) ==> Started(S, M, m, s.m, lr, objects.value, selector))
  {
    hide Resumes, Callbacks, IsPath, Dispatch;
    MainCall(S, M, m.r.(lr := lr), found, objects, selector);
    if objects.Some? {
      var phase := FirstPhase(M, m.r, objects.value);
      PathExtends(M, [], phase);
      PushFrame(m.frames, Activation(StubFor(S, Callback(phase, lr)), Callback(phase, lr)));
    }
  }

  /** What UIApplicationMain does to the runtime. */
  lemma MainCall(S: Stubs, M: Methods, r: Runtime, found: bool, objects: Option<Objects>, selector: Option<nat>)
    requires S.Distinct() && r.transfer.None?
    ensures var c := HostCall(S, M, r, UIApplicationMain(found, objects, selector));
      && (c.Fails? <==> objects.None? || (found && !r.dispatched && selector.None?))
      && (c.Transfers? <==> !c.Fails? && Starts(M, r, found, objects))
      && (!c.Fails? ==> c.r.returnPcs == r.returnPcs && c.r.transfer.None? && c.r.application.Some?)
      && (!c.Fails? && r.dispatched ==> c.r.dispatched && c.r.launchReturnPc == r.launchReturnPc)
      && (!c.Fails? && r.delegate.Some? ==> c.r.delegate.Some?)
      && (c.Continues? ==> c.r.pc == r.lr && c.r.x0 == 0 && (r.dispatched ==> c.r.delegate == r.delegate))
      && (c.Transfers? ==> c.r.dispatched && FirstCallback(S, M, r, c.r, objects.value, selector))
  {}

  /** The first callback gets its method's address, its receiver and its selector, and will return
      to its stub; the objects and the caller are remembered. */
  predicate FirstCallback(S: Stubs, M: Methods, r: Runtime, r': Runtime, o: Objects, selector: Option<nat>) {
    var phase := FirstPhase(M, r, o);
    && Some(r'.pc) == AddressOf(M, phase) && r'.lr == StubFor(S, Callback(phase, r.lr)) && Some(r'.x1) == selector
    && r'.delegate == Some(o.delegate) && r'.launchReturnPc == Some(r.lr)
    && r'.application == (if r.application.Some? then r.application else Some(o.application))
    && r'.viewController == (if o.viewController.Some? then o.viewController else r.viewController)
    && if phase == Awake then Some(r'.x0) == r'.viewController && r'.x2 == 0 && !r'.awakeDone
       else r'.x0 == o.delegate && Some(r'.x2) == r'.application && r'.x3 == 0 && r'.pendingActive
  }

  predicate Started(S: Stubs, M: Methods, m: Machine, m': Machine, lr: Addr, o: Objects, selector: Option<nat>) {
    var phase := FirstPhase(M, m.r, o);
    && m.history == [] && m'.history == [phase]
    && m'.frames == m.frames + [Activation(StubFor(S, Callback(phase, lr)), Callback(phase, lr))]
    && FirstCallback(S, M, m.r.(lr := lr), m'.r, o, selector)
  }

  lemma StepKeeps(S: Stubs, M: Methods, m: Machine, e: Event)
    requires S.Distinct() && Inv(S, M, m) && EventOk(S, e) && Apply(S, M, m, e).Next?
    ensures Inv(S, M, Apply(S, M, m, e).m)
  {
    hide Inv;
    match e
    case SendMessage(lr, address) => SendKeeps(S, M, m, lr, address);
    case CallHost(lr, result) => HostCallKeeps(S, M, m, lr, result);
    case CallMain(lr, found, objects, selector) => MainKeeps(S, M, m, lr, found, objects, selector);
    case Return(x0, selector) =>
      if m.frames[|m.frames| - 1].kind.Method? {
        MethodReturns(S, M, m, x0, selector);
      } else {
        var next := CallbackReturns(S, M, m, x0, selector);
      }
  }

  // ---- Runs ----

  function Run(S: Stubs, M: Methods, m: Machine, es: seq<Event>): Step
    decreases |es|
  {
    if es == [] then Next(m)
    else
      var s := Apply(S, M, m, es[0]);
      if s.Failed? then Failed else Run(S, M, s.m, es[1..])
  }

  predicate EventsOk(S: Stubs, es: seq<Event>) { forall i | 0 <= i < |es| :: EventOk(S, es[i]) }

  /** Throughout the run, at least d activations are there. */
  predicate StaysAbove(S: Stubs, M: Methods, m: Machine, es: seq<Event>, d: nat)
    decreases |es|
  {
    && |m.frames| >= d
    && (es == [] || (var s := Apply(S, M, m, es[0]); s.Failed? || StaysAbove(S, M, s.m, es[1..], d)))
  }

  /** Activations at the bottom stay, except that a callback on top of them may be followed by the
      next one on behalf of the same caller. */
  predicate SameBelow(m: Machine, m': Machine, d: nat) {
    && |m.frames| > d && |m'.frames| > d && m'.frames[..d] == m.frames[..d]
    && m'.frames[d].kind.resume == m.frames[d].kind.resume && m'.frames[d].kind.Method? == m.frames[d].kind.Method?
  }

  lemma StepSameBelow(S: Stubs, M: Methods, m: Machine, e: Event, d: nat)
    requires S.Distinct() && Inv(S, M, m) && EventOk(S, e) && Apply(S, M, m, e).Next?
    requires |m.frames| > d && |Apply(S, M, m, e).m.frames| > d
    ensures SameBelow(m, Apply(S, M, m, e).m, d)
  {
    hide Inv, RunStub, HostCall;
    if e.Return? { ReturnSameBelow(S, M, m, e, d); }
  }

  lemma ReturnSameBelow(S: Stubs, M: Methods, m: Machine, e: Event, d: nat)
    requires S.Distinct() && Inv(S, M, m) && e.Return? && Apply(S, M, m, e).Next?
    requires |m.frames| > d && |Apply(S, M, m, e).m.frames| > d
    ensures SameBelow(m, Apply(S, M, m, e).m, d)
  {
    hide Inv, Apply;
    var n := |m.frames| - 1;
    if m.frames[n].kind.Method? {
      MethodReturns(S, M, m, e.x0, e.selector);
    } else {
      var next := CallbackReturns(S, M, m, e.x0, e.selector);
    }
  }

  lemma {:induction false} RunKeeps(S: Stubs, M: Methods, m: Machine, es: seq<Event>)
    requires S.Distinct() && Inv(S, M, m) && EventsOk(S, es) && Run(S, M, m, es).Next?
    ensures Inv(S, M, Run(S, M, m, es).m)
    decreases |es|
  {
    hide Inv, Apply;
    if es != [] {
      StepKeeps(S, M, m, es[0]);
      RunKeeps(S, M, Apply(S, M, m, es[0]).m, es[1..]);
    }
  }

  lemma {:induction false} RunSameBelow(S: Stubs, M: Methods, m: Machine, es: seq<Event>, d: nat)
    requires S.Distinct() && Inv(S, M, m) && EventsOk(S, es) && Run(S, M, m, es).Next?
    requires StaysAbove(S, M, m, es, d + 1)
    ensures Inv(S, M, Run(S, M, m, es).m) && SameBelow(m, Run(S, M, m, es).m, d)
    decreases |es|
  {
    hide Inv, Apply;
    if es != [] {
      var m1 := Apply(S, M, m, es[0]).m;
      StepKeeps(S, M, m, es[0]);
      StepSameBelow(S, M, m, es[0], d);
      RunSameBelow(S, M, m1, es[1..], d);
    }
  }

  /** However deep the messages nest in between, the method a message went to returns to where the
      message was sent from, with its result, and the continuations are those from before. */
  lemma MessagesNest(S: Stubs, M: Methods, m: Machine, lr: Addr, address: Addr, es: seq<Event>, x0: nat, selector: Option<nat>)
    requires S.Distinct() && Inv(S, M, m) && EventOk(S, SendMessage(lr, address)) && EventsOk(S, es)
    requires var m1 := Apply(S, M, m, SendMessage(lr, address)).m;
      && Run(S, M, m1, es).Next? && StaysAbove(S, M, m1, es, |m.frames| + 1)
      && |Run(S, M, m1, es).m.frames| == |m.frames| + 1
    ensures var m1 := Apply(S, M, m, SendMessage(lr, address)).m;
      var s := Apply(S, M, Run(S, M, m1, es).m, Return(x0, selector));
      s.Next? && s.m.r.pc == lr && s.m.r.x0 == x0 && s.m.frames == m.frames && s.m.r.returnPcs == m.r.returnPcs
  {
    SendKeeps(S, M, m, lr, address);
    var m1 := Apply(S, M, m, SendMessage(lr, address)).m;
    RunSameBelow(S, M, m1, es, |m.frames|);
    var m2 := Run(S, M, m1, es).m;
    MethodReturns(S, M, m2, x0, selector);
    var m3 := Apply(S, M, m2, Return(x0, selector)).m;
    assert m3.frames == m.frames;
  }

  /** All the phases of an application that starts with the given one. */
  function Phases(M: Methods, p: Phase): seq<Phase> {
    match p
    case Awake => [Awake, Launch] + (if M.active.Some? then [Active] else []) + [Done]
    case Launch => [Launch] + (if M.active.Some? then [Active] else []) + [Done]
    case Active => [Active, Done]
    case Done => [Done]
  }

  lemma PathToTheEnd(M: Methods, h: seq<Phase>)
    requires IsPath(M, h) && h != [] && h[|h| - 1] == Done
    ensures h == Phases(M, h[0])
  {
    assert |h| > 1;
    assert h[1] == NextPhase(M, h[0]);
    if |h| > 2 { assert h[2] == NextPhase(M, h[1]); }
    if |h| > 3 { assert h[3] == NextPhase(M, h[2]); }
  }

  /** Every run from a UIApplicationMain that starts callbacks, once control is back below them:
      it passed through awake, launch and active in this order, skipping those that the guest does
      not implement, and went on at the address that LR held in the call. */
  lemma ApplicationReturnsToItsCaller(S: Stubs, M: Methods, m: Machine, main: Event, es: seq<Event>, x0: nat, selector: Option<nat>)
    requires S.Distinct() && Inv(S, M, m) && main.CallMain? && Starts(M, m.r, main.delegateFound, main.objects)
    requires Apply(S, M, m, main).Next? && EventsOk(S, es)
    requires var m1 := Apply(S, M, m, main).m;
      && Run(S, M, m1, es).Next? && StaysAbove(S, M, m1, es, |m.frames| + 1)
      && var last := Apply(S, M, Run(S, M, m1, es).m, Return(x0, selector)); last.Next? && |last.m.frames| == |m.frames|
    ensures var m1 := Apply(S, M, m, main).m;
      var end := Apply(S, M, Run(S, M, m1, es).m, Return(x0, selector)).m;
      && end.r.pc == main.lr && end.r.x0 == x0 && end.frames == m.frames
      && Started(S, M, m, m1, main.lr, main.objects.value, main.selector)
      && end.history == Phases(M, FirstPhase(M, m.r, main.objects.value))
  {
    MainStarts(S, M, m, main);
    hide Inv, Apply, Run, StaysAbove, Starts, FirstCallback, Phases, FirstPhase, EventOk;
    var m1 := Apply(S, M, m, main).m;
    RunSameBelow(S, M, m1, es, |m.frames|);
    HistoryStarts(S, M, m1, es);
    LastReturn(S, M, m1, Run(S, M, m1, es).m, |m.frames|, x0, selector);
  }

  lemma MainStarts(S: Stubs, M: Methods, m: Machine, main: Event)
    requires S.Distinct() && Inv(S, M, m) && main.CallMain? && Starts(M, m.r, main.delegateFound, main.objects)
    requires Apply(S, M, m, main).Next?
    ensures var m1 := Apply(S, M, m, main).m;
      Inv(S, M, m1) && Started(S, M, m, m1, main.lr, main.objects.value, main.selector)
  {
    hide Inv, Apply, Started;
    MainKeeps(S, M, m, main.lr, main.delegateFound, main.objects, main.selector);
  }

  /** The return that leaves the first callback's place on the stack is that of the last one. */
  lemma LastReturn(S: Stubs, M: Methods, m1: Machine, m2: Machine, d: nat, x0: nat, selector: Option<nat>)
    requires S.Distinct() && Inv(S, M, m2) && SameBelow(m1, m2, d) && m1.frames[d].kind.Callback?
    requires m2.history != [] && m1.history != [] && m2.history[0] == m1.history[0]
    requires var last := Apply(S, M, m2, Return(x0, selector)); last.Next? && |last.m.frames| == d
    ensures var end := Apply(S, M, m2, Return(x0, selector)).m;
      && end.r.pc == m1.frames[d].kind.resume && end.r.x0 == x0 && end.frames == m1.frames[..d]
      && end.history == Phases(M, m1.history[0])
  {
    hide Apply, Phases, IsPath;
    var end := Apply(S, M, m2, Return(x0, selector)).m;
    ReturnPopsOne(S, M, m2, x0, selector);
    var next := CallbackReturns(S, M, m2, x0, selector);
    PathToTheEnd(M, end.history);
  }

  lemma ReturnPopsOne(S: Stubs, M: Methods, m: Machine, x0: nat, selector: Option<nat>)
    requires Apply(S, M, m, Return(x0, selector)).Next?
    ensures |m.frames| > 0 && |Apply(S, M, m, Return(x0, selector)).m.frames| >= |m.frames| - 1
  {
    hide RunStub;
  }

  lemma {:induction false} HistoryStarts(S: Stubs, M: Methods, m: Machine, es: seq<Event>)
    requires S.Distinct() && Inv(S, M, m) && m.history != [] && EventsOk(S, es) && Run(S, M, m, es).Next?
    ensures Run(S, M, m, es).m.history != [] && Run(S, M, m, es).m.history[0] == m.history[0]
    decreases |es|
  {
    if es != [] {
      StepKeeps(S, M, m, es[0]);
      HistoryStarts(S, M, Apply(S, M, m, es[0]).m, es[1..]);
    }
  }

  // ---- The runtime object ----

  lemma BootstrappedHas(r: Runtime, o: Objects, application: nat)
    ensures var r' := Bootstrapped(r, o, application); r'.delegate.Some? && r'.application.Some? && r'.transfer == r.transfer
  {}

  /** The registers of the CPU's context that host functions use, and the state of the runtime. */
  class RuntimeState {
    const stubs: Stubs
    const methods: Methods
    var x0: nat
    var x1: nat
    var x2: nat
    var x3: nat
    var lr: Addr
    var pc: Addr
    var guestMethodReturnPcs: seq<Addr>
    var guestTransferPc: Option<Addr>
    var launchCallbackReturnPc: Option<Addr>
    var bootstrapDispatched: bool
    var pendingDidBecomeActive: bool
    var nibAwakeDispatched: bool
    var application: Option<nat>
    var delegate: Option<nat>
    var viewController: Option<nat>

    function State(): Runtime
      reads this
    {
      Runtime(x0, x1, x2, x3, lr, pc, guestMethodReturnPcs, guestTransferPc, launchCallbackReturnPc, bootstrapDispatched,
              pendingDidBecomeActive, nibAwakeDispatched, application, delegate, viewController)
    }

    constructor (stubs: Stubs, methods: Methods, entry: Addr, returnStub: Addr)
      ensures this.stubs == stubs && this.methods == methods && Inv(stubs, methods, Machine(State(), [], []))
      ensures pc == entry && lr == returnStub
    {
      this.stubs, this.methods := stubs, methods;
      x0, x1, x2, x3, lr, pc := 0, 0, 0, 0, returnStub, entry;
      guestMethodReturnPcs, guestTransferPc, launchCallbackReturnPc := [], None, None;
      bootstrapDispatched, pendingDidBecomeActive, nibAwakeDispatched := false, false, false;
      application, delegate, viewController := None, None, None;
    }

    /** A message goes to guest code, which will return to the stub. */
    method TransferGuestMethod(address: Addr)
      modifies this
      ensures State() == Transferred(stubs, old(State()), address)
    {
      guestMethodReturnPcs := guestMethodReturnPcs + [lr];
      lr := stubs.methodReturn;
      guestTransferPc := Some(address);
    }

    method GuestMethodReturned() returns (ok: bool)
      modifies this
      ensures (if ok then Ok(State()) else Err) == Dispatch(stubs, methods, old(State()), GuestMethodReturn)
    {
      if guestMethodReturnPcs == [] { return false; }
      lr := guestMethodReturnPcs[|guestMethodReturnPcs| - 1];
      guestMethodReturnPcs := guestMethodReturnPcs[..|guestMethodReturnPcs| - 1];
      return true;
    }

    /** Receiver, selector and argument of a callback. */
    method PassArguments(receiver: nat, selector: nat, argument: nat)
      modifies this`x0, this`x1, this`x2
      ensures State() == old(State()).(x0 := receiver, x1 := selector, x2 := argument)
    {
      x0, x1, x2 := receiver, selector, argument;
    }

    /** Guest code to go on at, and the stub it will return to. */
    method TransferTo(address: Option<Addr>, stub: Addr)
      modifies this`lr, this`guestTransferPc
      ensures State() == old(State()).(lr := stub, transfer := address)
    {
      lr, guestTransferPc := stub, address;
    }

    /** Awakening is over: launching comes next, and needs the objects and the method. */
    method NibAwakeReturned(selector: Option<nat>) returns (ok: bool)
      modifies this
      ensures (if ok then Ok(State()) else Err) == NibAwake(stubs, methods, old(State()), selector)
    {
      nibAwakeDispatched := true;
      if delegate.None? || application.None? { return false; }
      if methods.launch.None? { return false; }
      if selector.None? { return false; }
      PassArguments(delegate.value, selector.value, application.value);
      x3 := 0;
      pendingDidBecomeActive := true;
      TransferTo(methods.launch, stubs.launchReturn);
      return true;
    }

    /** Launching is over: becoming active comes next if the delegate has a method for it. */
    method ApplicationLaunchReturned(selector: Option<nat>) returns (ok: bool)
      modifies this
      ensures (if ok then Ok(State()) else Err) == LaunchReturned(stubs, methods, old(State()), selector)
    {
      pendingDidBecomeActive := false;
      if delegate.Some? && application.Some? {
        if methods.active.Some? {
          if selector.None? { return false; }
          PassArguments(delegate.value, selector.value, application.value);
          TransferTo(methods.active, stubs.activeReturn);
          return true;
        }
      }
      lr := stubs.applicationReturn;
      return true;
    }

    method AwakenNib(selector: Option<nat>) returns (ok: bool)
      requires viewController.Some?
      modifies this
      ensures (if ok then Ok(State()) else Err) == StartAwake(stubs, methods, old(State()), selector)
    {
      if selector.None? { return false; }
      PassArguments(viewController.value, selector.value, 0);
      nibAwakeDispatched := false;
      TransferTo(methods.awake, stubs.nibReturn);
      return true;
    }

    method LaunchApplication(selector: Option<nat>) returns (ok: bool)
      requires delegate.Some? && application.Some? && guestTransferPc.None?
      modifies this
      ensures (if ok then Ok(State()) else Err) == StartLaunch(stubs, methods, old(State()), selector)
    {
      if selector.None? { return false; }
      PassArguments(delegate.value, selector.value, application.value);
      x3 := 0;
      if methods.launch.Some? {
        launchCallbackReturnPc := Some(lr);
        pendingDidBecomeActive := true;
        TransferTo(methods.launch, stubs.launchReturn);
      }
      if guestTransferPc.None? { x0 := 0; }
      return true;
    }

    method Bootstrap(o: Objects)
      modifies this
      ensures State() == Bootstrapped(old(State()), o, if old(application).Some? then old(application).value else o.application)
    {
      if application.None? { application := Some(o.application); }
      bootstrapDispatched := true;
      delegate := Some(o.delegate);
      if o.viewController.Some? { viewController := o.viewController; }
      launchCallbackReturnPc := Some(lr);
    }

    /** Creates the application's objects and starts its first callback, once; otherwise returns 0. */
    method UIApplicationMain(delegateFound: bool, objects: Option<Objects>, selector: Option<nat>) returns (ok: bool)
      requires guestTransferPc.None?
      modifies this
      ensures (if ok then Ok(State()) else Err) == Main(stubs, methods, old(State()), delegateFound, objects, selector)
    {
      hide Bootstrapped, StartAwake, StartLaunch;
      if objects.None? { return false; }
      if !delegateFound || bootstrapDispatched {
        if application.None? { application := Some(objects.value.application); }
        x0 := 0;
        return true;
      }
      ghost var r := State();
      Bootstrap(objects.value);
      BootstrappedHas(r, objects.value, if r.application.Some? then r.application.value else objects.value.application);
      if viewController.Some? && methods.awake.Some? {
        ok := AwakenNib(selector);
      } else {
        ok := LaunchApplication(selector);
      }
    }

    /** Runs a host function, and goes on at a transfer or at LR. */
    method CallHostFunction(symbol: Symbol) returns (ok: bool, transferred: bool)
      requires guestTransferPc.None?
      modifies this
      ensures (if !ok then Fails else if transferred then Transfers(State()) else Continues(State()))
           == HostCall(stubs, methods, old(State()), symbol)
    {
      ok, transferred := true, false;
      match symbol {
        case GuestMethodReturn => ok := GuestMethodReturned();
        case NibAwakeReturn(selector) => ok := NibAwakeReturned(selector);
        case ApplicationLaunchReturn(selector) => ok := ApplicationLaunchReturned(selector);
        case ApplicationActiveReturn =>
          pendingDidBecomeActive := false;
          lr := stubs.applicationReturn;
        case ApplicationReturn =>
          pendingDidBecomeActive := false;
          if launchCallbackReturnPc.Some? { lr := launchCallbackReturnPc.value; }
        case UIApplicationMain(found, objects, selector) => ok := UIApplicationMain(found, objects, selector);
        case Send(address) => TransferGuestMethod(address);
        case Other(result) => x0 := result;
      }
      if !ok { return; }
      if guestTransferPc.Some? {
        pc := guestTransferPc.value;
        guestTransferPc := None;
        transferred := true;
      } else {
        pc := lr;
      }
    }
  }
}
