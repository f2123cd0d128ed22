/** The lazy dynamic linker: symbol stubs are guest code that is rewritten while the guest runs.

    The module has two layers. The layer of functions says what each linker operation does to
    guest memory, to the translated-code cache and to the linker's tables. The A32 layer executes
    the five instructions that stubs and trampolines are made of, fetching through the cache. The
    theorems say that a call through a rewritten stub always reaches the target that was bound on
    that stub's first call, whatever other threads and the JIT do in between. Module DynamicLinker
    has the object that holds the same state in mutable fields. */
module LazyLinker {

  // ---- Words, symbols and binaries ----

  type Word = x: int | 0 <= x < 0x1_0000_0000

  function Wrap(x: int): Word { x % 0x1_0000_0000 }

  datatype Option<T> = None | Some(value: T)

  /** What an SVC may dispatch to: an exported host function, the binder placeholder, or the
      stub that returns 0 on behalf of a symbol nobody implements. */
  datatype HostFunction = Export(symbol: string) | StubBinder | Unimplemented(symbol: string)

  /** A symbol-stub section: `count` entries of `entry` bytes, entry i for `symbols[i]`. */
  datatype StubSection = StubSection(addr: int, entry: nat, symbols: seq<string>) {
    function Size(): nat { entry * |symbols| }
  }

  datatype Binary = Binary(stubs: Option<StubSection>, lazyPointers: Option<int>, exports: map<string, Word>)

  /** One stub, as `do_lazy_link` identifies it from the address of the trap. */
  datatype Stub = Stub(addr: int, entry: nat, picOffset: Word, symbol: string)

  const SVC_LAZY_LINK := 0
  const SVC_THREAD_EXIT := 1
  const SVC_RETURN_TO_HOST := 2
  const SVC_LINKED_FUNCTIONS_BASE := 3
  const SVC_LAZY_LINK_RET_FLAG := 0x800000

  /** The number of functions whose SVC identifiers stay below the return flag. */
  const MAX_LINKED := 0x7ffffd

  const BX_LR: Word := 0xe12fff1e
  const TRAP: Word := 0xe7ffdefe
  const LDR_PC_LITERAL: Word := 0xe59ff000
  const LDR_R12_LITERAL: Word := 0xe59fc000
  const ADD_R12_PC_R12: Word := 0xe08fc00c
  const LDR_PC_R12: Word := 0xe59cf000

  function EncodeSvc(imm: nat): Word
    requires imm < 0x1000000
  {
    0xef000000 + imm
  }

  function LazySvc(entry: nat): nat {
    if entry == 4 then SVC_LAZY_LINK_RET_FLAG else SVC_LAZY_LINK
  }

  function LinkedSvc(entry: nat, index: nat): (svc: nat)
    requires index < MAX_LINKED
    ensures 3 <= svc < 0x1000000 && svc != SVC_LAZY_LINK_RET_FLAG
  {
    SVC_LINKED_FUNCTIONS_BASE + index + (if entry == 4 then SVC_LAZY_LINK_RET_FLAG else 0)
  }

  // ---- The linker's state and operations ----

  /** Guest memory by aligned word, the words the JIT has translated and not yet been told to
      forget, the append-only SVC table and the trampolines handed out so far. */
  datatype Linker = Linker(
    mem: map<int, Word>, icache: map<int, Word>, linked: seq<HostFunction>, nonLazy: map<string, int>)

  /** What stays fixed while the guest runs: the binaries, the symbols the host exports, which
      stubs `setup_lazy_linking` rewrote, and which pointer slot each of them uses. */
  datatype Layout = Layout(bins: seq<Binary>, hostExports: set<string>, stubs: set<Stub>, slots: map<int, Word>)

  function Read(mem: map<int, Word>, a: int): Word { if a in mem then mem[a] else 0 }

  function Forget(icache: map<int, Word>, base: int, size: nat): map<int, Word> {
    map a | a in icache && !(base <= a < base + size) :: icache[a]
  }

  function StubAt(bin: Binary, pc: int): Option<Stub> {
    if bin.stubs.Some? then
      var sec := bin.stubs.value;
      if sec.entry > 0 && sec.addr <= pc < sec.addr + sec.Size() && (pc - sec.addr) % sec.entry == 0 then
        IndexInSection(sec, pc);
        var pic := if bin.lazyPointers.Some? then Wrap(bin.lazyPointers.value - sec.addr) else 0;
        Some(Stub(pc, sec.entry, pic, sec.symbols[(pc - sec.addr) / sec.entry]))
      else None
    else None
  }

  lemma IndexInSection(sec: StubSection, pc: int)
    requires sec.entry > 0 && sec.addr <= pc < sec.addr + sec.Size()
    ensures 0 <= (pc - sec.addr) / sec.entry < |sec.symbols|
  {
    var o := pc - sec.addr;
    if o / sec.entry >= |sec.symbols| {
      assert sec.entry * (o / sec.entry) >= sec.entry * |sec.symbols| by { MulMonotone(sec.entry, |sec.symbols|, o / sec.entry); }
    }
  }

  lemma MulMonotone(k: nat, a: int, b: int)
    requires a <= b
    ensures k * a <= k * b
  {}

  /** The first binary whose stub section contains the trapping address decides which stub it is. */
  function FindStub(bins: seq<Binary>, pc: int): Option<Stub> {
    if bins == [] then None
    else if StubAt(bins[0], pc).Some? then StubAt(bins[0], pc)
    else FindStub(bins[1..], pc)
  }

  /** Where the stub's `__la_symbol_ptr` is: at an absolute address, or relative to the stub. */
  function Slot(mem: map<int, Word>, s: Stub): Word {
    if s.entry == 4 then Wrap(s.addr + s.picOffset + 8)
    else if s.entry == 12 then Read(mem, s.addr + 8)
    else Wrap(s.addr + Read(mem, s.addr + 12) + 12)
  }

  function FirstExport(bins: seq<Binary>, symbol: string): Option<Word> {
    if bins == [] then None
    else if symbol in bins[0].exports then Some(bins[0].exports[symbol])
    else FirstExport(bins[1..], symbol)
  }

  /** Where calls to a symbol should end up: guest code at an address, or a host function. */
  datatype Target = Guest(addr: Word) | Host(f: HostFunction)

  /** The order of preference: existing trampoline, first exporting binary, host function,
      return-0 stub. */
  function Resolve(L: Layout, nonLazy: map<string, int>, symbol: string): Target {
    if symbol in nonLazy then Guest(Wrap(nonLazy[symbol]))
    else if FirstExport(L.bins, symbol).Some? then Guest(FirstExport(L.bins, symbol).value)
    else if symbol in L.hostExports then Host(Export(symbol))
    else Host(Unimplemented(symbol))
  }

  function RestoredWords(mem: map<int, Word>, s: Stub): map<int, Word> {
    if s.entry == 4 then mem[s.addr := Wrap(LDR_PC_LITERAL + s.picOffset)]
    else if s.entry == 12 then mem[s.addr := LDR_R12_LITERAL][s.addr + 4 := LDR_PC_R12]
    else mem[s.addr := LDR_R12_LITERAL + 4][s.addr + 4 := ADD_R12_PC_R12][s.addr + 8 := LDR_PC_R12]
  }

  function InstructionBytes(entry: nat): nat { if entry == 4 then 4 else if entry == 12 then 8 else 12 }

  function RestoreStub(S: Linker, s: Stub, target: Word): Linker {
    var mem := RestoredWords(S.mem, s);
    S.(mem := mem[Slot(mem, s) := target], icache := Forget(S.icache, s.addr, InstructionBytes(s.entry)))
  }

  function BindHost(S: Linker, s: Stub, f: HostFunction): Linker
    requires |S.linked| < MAX_LINKED
  {
    S.(mem := S.mem[s.addr := EncodeSvc(LinkedSvc(s.entry, |S.linked|))],
       icache := Forget(S.icache, s.addr, 4), linked := S.linked + [f])
  }

  function LazyLink(L: Layout, S: Linker, s: Stub): (r: (Linker, Option<HostFunction>))
    requires |S.linked| < MAX_LINKED
  {
    match Resolve(L, S.nonLazy, s.symbol)
    case Guest(a) => (RestoreStub(S, s, a), None)
    case Host(f) => (BindHost(S, s, f), Some(f))
  }

  /** The function an SVC selects, and None when the trap must be executed again. */
  function SvcHandler(L: Layout, S: Linker, pc: int, imm: nat): (Linker, Option<HostFunction>)
    requires |S.linked| < MAX_LINKED
  {
    if imm == SVC_LAZY_LINK || imm == SVC_LAZY_LINK_RET_FLAG then
      var s := FindStub(L.bins, pc);
      if s.Some? then LazyLink(L, S, s.value) else (S, None)
    else
      var index := imm % SVC_LAZY_LINK_RET_FLAG - SVC_LINKED_FUNCTIONS_BASE;
      if 0 <= index < |S.linked| then (S, Some(S.linked[index])) else (S, None)
  }

  /** The name a trampoline is remembered under and the function it calls. */
  function ProcEntry(L: Layout, symbol: string): Option<(string, HostFunction)> {
    if symbol == "dyld_stub_binder" || symbol == "_dyld_stub_binder" then Some(("dyld_stub_binder", StubBinder))
    else if symbol in L.hostExports then Some((symbol, Export(symbol)))
    else None
  }

  /** `create_proc_address`; `at` is the 8-byte allocation a new trampoline is written to. */
  function ProcAddress(L: Layout, S: Linker, symbol: string, at: int): (Linker, Option<int>)
    requires |S.linked| < MAX_LINKED
  {
    var e := ProcEntry(L, symbol);
    if e.None? then (S, None)
    else
      var (name, f) := e.value;
      if name in S.nonLazy then
        (S.(icache := Forget(S.icache, S.nonLazy[name] - S.nonLazy[name] % 2, 8)), Some(S.nonLazy[name]))
      else
        var mem := S.mem[at := EncodeSvc(LinkedSvc(12, |S.linked|))][at + 4 := BX_LR];
        (Linker(mem, Forget(S.icache, at - at % 2, 8), S.linked + [f], S.nonLazy[name := at]), Some(at))
  }

  // ---- Well-formed layouts ----

  predicate InStub(s: Stub, a: int) { s.addr <= a < s.addr + s.entry }

  predicate SectionsDisjoint(b: Binary, c: Binary) {
    b.stubs.Some? && c.stubs.Some? ==>
      b.stubs.value.addr + b.stubs.value.Size() <= c.stubs.value.addr ||
      c.stubs.value.addr + c.stubs.value.Size() <= b.stubs.value.addr
  }

  /** What linking assumes of the loaded binaries: stub sections are aligned and do not overlap,
      and the rewritten stubs are entries of those sections. */
  ghost predicate Loaded(L: Layout) {
    && (forall i, j | 0 <= i < j < |L.bins| :: SectionsDisjoint(L.bins[i], L.bins[j]))
    && (forall b | b in L.bins && b.stubs.Some? ::
          0 <= b.stubs.value.addr && b.stubs.value.addr % 4 == 0
          && b.stubs.value.addr + b.stubs.value.Size() <= 0x1_0000_0000)
    && (forall s | s in L.stubs :: s.entry in {4, 12, 16} && FindStub(L.bins, s.addr) == Some(s))
  }

  predicate StubInRange(s: Stub) {
    s.entry in {4, 12, 16} && s.addr % 4 == 0 && 0 <= s.addr && s.addr + s.entry <= 0x1_0000_0000
  }

  predicate StubsApart(s: Stub, t: Stub) { s.addr + s.entry <= t.addr || t.addr + t.entry <= s.addr }

  /** Rewritten stubs are aligned words that never overlap, 4-byte stubs reach their pointer with
      a 12-bit offset, and the pointer slots of different stubs are different words outside all
      rewritten stubs. Exported host names carry a leading underscore, so none is the binder's. */
  ghost predicate LayoutOk(L: Layout) {
    && "dyld_stub_binder" !in L.hostExports
    && (forall s | s in L.stubs :: StubInRange(s) && s.addr in L.slots && (s.entry == 4 ==> s.picOffset < 4096))
    && (forall s, t | s in L.stubs && t in L.stubs ::
          !InStub(t, L.slots[s.addr]) && (s != t ==> StubsApart(s, t) && L.slots[s.addr] != L.slots[t.addr]))
  }

  lemma FoundInSection(bins: seq<Binary>, pc: int) returns (i: nat)
    requires FindStub(bins, pc).Some?
    ensures i < |bins| && StubAt(bins[i], pc) == FindStub(bins, pc)
  {
    if StubAt(bins[0], pc).Some? { return 0; }
    var k := FoundInSection(bins[1..], pc);
    return k + 1;
  }

  lemma StubInSection(b: Binary, s: Stub)
    requires StubAt(b, s.addr) == Some(s) && s.entry in {4, 12, 16}
    ensures b.stubs.Some? && b.stubs.value.entry == s.entry && (s.addr - b.stubs.value.addr) % s.entry == 0
    ensures b.stubs.value.addr <= s.addr && s.addr + s.entry <= b.stubs.value.addr + b.stubs.value.Size()
  {
    var sec := b.stubs.value;
    IndexInSection(sec, s.addr);
    var k := (s.addr - sec.addr) / sec.entry;
    MulMonotone(sec.entry, k + 1, |sec.symbols|);
  }

  lemma MultiplesOfFour(x: int, a: int, b: int)
    requires x % 4 == 0 && (a - x) % 4 == 0 && (b - x) % 4 == 0
    ensures a % 4 == 0 && (a < b ==> a + 4 <= b) && (b < a ==> b + 4 <= a)
  {}

  lemma MultiplesOfTwelve(x: int, a: int, b: int)
    requires x % 4 == 0 && (a - x) % 12 == 0 && (b - x) % 12 == 0
    ensures a % 4 == 0 && (a < b ==> a + 12 <= b) && (b < a ==> b + 12 <= a)
  {}

  lemma MultiplesOfSixteen(x: int, a: int, b: int)
    requires x % 4 == 0 && (a - x) % 16 == 0 && (b - x) % 16 == 0
    ensures a % 4 == 0 && (a < b ==> a + 16 <= b) && (b < a ==> b + 16 <= a)
  {}

  lemma MultiplesApart(e: nat, x: int, a: int, b: int)
    requires e in {4, 12, 16} && x % 4 == 0 && (a - x) % e == 0 && (b - x) % e == 0
    ensures a % 4 == 0 && (a < b ==> a + e <= b) && (b < a ==> b + e <= a)
  {
    if e == 4 {
      MultiplesOfFour(x, a, b);
    } else if e == 12 {
      MultiplesOfTwelve(x, a, b);
    } else {
      MultiplesOfSixteen(x, a, b);
    }
  }

  /** Entries of aligned, disjoint sections are aligned and disjoint themselves. */
  lemma LoadedStubsApart(L: Layout, s: Stub, t: Stub)
    requires Loaded(L) && s in L.stubs && t in L.stubs
    ensures StubInRange(s) && (s != t ==> StubsApart(s, t))
  {
    var i := FoundInSection(L.bins, s.addr);
    var j := FoundInSection(L.bins, t.addr);
    StubInSection(L.bins[i], s);
    StubInSection(L.bins[j], t);
    assert L.bins[i] in L.bins && L.bins[j] in L.bins;
    if i < j {
      assert SectionsDisjoint(L.bins[i], L.bins[j]);
    } else if j < i {
      assert SectionsDisjoint(L.bins[j], L.bins[i]);
    }
    var sec := L.bins[i].stubs.value;
    MultiplesApart(s.entry, sec.addr, s.addr, if i == j then t.addr else s.addr);
  }

  // ---- What a stub's words mean ----

  datatype Binding = Unbound | Bound(target: Target)

  function HostIndex(w: Word): int { (w - 0xef000000) % SVC_LAZY_LINK_RET_FLAG - SVC_LINKED_FUNCTIONS_BASE }

  predicate IsSvc(w: Word) { 0xef000000 <= w < 0xf0000000 }

  /** The target a stub's current words lead to, read off memory and the SVC table. */
  function BindingOf(S: Linker, s: Stub): Binding {
    var w := Read(S.mem, s.addr);
    if w == EncodeSvc(LazySvc(s.entry)) then Unbound
    else if IsSvc(w) then
      if 0 <= HostIndex(w) < |S.linked| then Bound(Host(S.linked[HostIndex(w)])) else Unbound
    else Bound(Guest(Read(S.mem, Slot(S.mem, s))))
  }

  predicate StubOk(L: Layout, S: Linker, s: Stub)
    requires s.addr in L.slots
  {
    var w := Read(S.mem, s.addr);
    && Slot(S.mem, s) == L.slots[s.addr]
    && if w == EncodeSvc(LazySvc(s.entry)) then s.entry != 4 ==> Read(S.mem, s.addr + 4) == BX_LR
       else if IsSvc(w) then
         && 0 <= HostIndex(w) < |S.linked| && HostIndex(w) < MAX_LINKED
         && w == EncodeSvc(LinkedSvc(s.entry, HostIndex(w)))
         && (s.entry != 4 ==> Read(S.mem, s.addr + 4) == BX_LR)
       else Restored(S.mem, s)
  }

  predicate Restored(mem: map<int, Word>, s: Stub) {
    if s.entry == 4 then Read(mem, s.addr) == Wrap(LDR_PC_LITERAL + s.picOffset)
    else if s.entry == 12 then Read(mem, s.addr) == LDR_R12_LITERAL && Read(mem, s.addr + 4) == LDR_PC_R12
    else
      && Read(mem, s.addr) == LDR_R12_LITERAL + 4
      && Read(mem, s.addr + 4) == ADD_R12_PC_R12 && Read(mem, s.addr + 8) == LDR_PC_R12
  }

  /** A trampoline is an SVC for its function followed by a return, away from every stub. */
  predicate TrampolineOk(S: Linker, name: string)
    requires name in S.nonLazy
  {
    var a := S.nonLazy[name];
    var w := Read(S.mem, a);
    && a % 4 == 0 && 0 <= a && a + 8 <= 0x1_0000_0000
    && IsSvc(w) && 0 <= HostIndex(w) < |S.linked| && HostIndex(w) < MAX_LINKED
    && w == EncodeSvc(LinkedSvc(12, HostIndex(w)))
    && S.linked[HostIndex(w)] == (if name == "dyld_stub_binder" then StubBinder else Export(name))
    && Read(S.mem, a + 4) == BX_LR
  }

  /** Nothing stale in the translated-code cache. */
  predicate FreshAt(S: Linker, a: int) { a in S.icache ==> S.icache[a] == Read(S.mem, a) }

  predicate Apart(L: Layout, s: Stub, a: int)
    requires s.addr in L.slots
  {
    (s.addr + s.entry <= a || a + 8 <= s.addr) && L.slots[s.addr] != a && L.slots[s.addr] != a + 4
  }

  ghost predicate StubsInv(L: Layout, S: Linker)
    requires LayoutOk(L)
  {
    && (forall s | s in L.stubs :: StubOk(L, S, s))
    && (forall s, a: int | s in L.stubs && InStub(s, a) :: FreshAt(S, a))
  }

  predicate TrampolinesInv(S: Linker) {
    forall n | n in S.nonLazy :: TrampolineOk(S, n) && FreshAt(S, S.nonLazy[n]) && FreshAt(S, S.nonLazy[n] + 4)
  }

  ghost predicate TrampolinesApart(L: Layout, nonLazy: map<string, int>)
    requires LayoutOk(L)
  {
    && (forall n, s | n in nonLazy && s in L.stubs :: Apart(L, s, nonLazy[n]))
    && (forall n, m | n in nonLazy && m in nonLazy && n != m ::
          nonLazy[n] + 8 <= nonLazy[m] || nonLazy[m] + 8 <= nonLazy[n])
  }

  ghost predicate Inv(L: Layout, S: Linker)
    requires LayoutOk(L)
  {
    |S.linked| <= MAX_LINKED && StubsInv(L, S) && TrampolinesInv(S) && TrampolinesApart(L, S.nonLazy)
  }

  // ---- What may happen between two instructions of a thread ----

  /** The JIT translates any word ahead of time, the guest stores outside linker-owned words,
      someone asks for a trampoline, or another thread makes a stub's first call. */
  datatype Event =
    | Translate(a: int)
    | GuestStore(a: int, v: Word)
    | MakeProcAddress(symbol: string, at: int)
    | OtherFirstCall(s: Stub)

  ghost predicate Unowned(L: Layout, S: Linker, a: int)
    requires LayoutOk(L)
  {
    && (forall s | s in L.stubs :: !InStub(s, a) && a != L.slots[s.addr])
    && (forall n | n in S.nonLazy :: a != S.nonLazy[n] && a != S.nonLazy[n] + 4)
  }

  /** The allocator's promise: eight aligned bytes that nothing of the linker's lives in. */
  ghost predicate AllocationOk(L: Layout, S: Linker, at: int)
    requires LayoutOk(L)
  {
    && at % 4 == 0 && 0 <= at && at + 8 <= 0x1_0000_0000
    && (forall s | s in L.stubs :: Apart(L, s, at))
    && (forall n | n in S.nonLazy :: S.nonLazy[n] + 8 <= at || at + 8 <= S.nonLazy[n])
  }

  ghost predicate EventOk(L: Layout, S: Linker, e: Event)
    requires LayoutOk(L)
  {
    match e
    case Translate(_) => true
    case GuestStore(a, _) => Unowned(L, S, a)
    case MakeProcAddress(_, at) => |S.linked| < MAX_LINKED && AllocationOk(L, S, at)
    case OtherFirstCall(s) => |S.linked| < MAX_LINKED && s in L.stubs && BindingOf(S, s) == Unbound
  }

  function Apply(L: Layout, S: Linker, e: Event): Linker {
    match e
    case Translate(a) => if a in S.icache then S else S.(icache := S.icache[a := Read(S.mem, a)])
    case GuestStore(a, v) => S.(mem := S.mem[a := v])
    case MakeProcAddress(symbol, at) => if |S.linked| < MAX_LINKED then ProcAddress(L, S, symbol, at).0 else S
    case OtherFirstCall(s) => if |S.linked| < MAX_LINKED then LazyLink(L, S, s).0 else S
  }

  ghost predicate EventsOk(L: Layout, S: Linker, es: seq<Event>)
    requires LayoutOk(L)
    decreases |es|
  {
    es == [] || (EventOk(L, S, es[0]) && EventsOk(L, Apply(L, S, es[0]), es[1..]))
  }

  function ApplyAll(L: Layout, S: Linker, es: seq<Event>): Linker
    decreases |es|
  {
    if es == [] then S else ApplyAll(L, Apply(L, S, es[0]), es[1..])
  }

  /** Bound stubs keep their target, trampolines stay where they are, SVC numbers keep their
      meaning. */
  ghost predicate Extends(L: Layout, S: Linker, S': Linker) {
    && S.linked <= S'.linked
    && (forall n | n in S.nonLazy :: n in S'.nonLazy && S'.nonLazy[n] == S.nonLazy[n])
    && (forall s | s in L.stubs && BindingOf(S, s).Bound? :: BindingOf(S', s) == BindingOf(S, s))
  }

  /** A stub whose words and slot are not written keeps its meaning while the tables grow. */
  lemma StubFrame(L: Layout, S: Linker, S': Linker, s: Stub)
    requires LayoutOk(L) && s in L.stubs && StubOk(L, S, s) && S.linked <= S'.linked
    requires forall a | InStub(s, a) :: Read(S'.mem, a) == Read(S.mem, a)
    ensures StubOk(L, S', s)
    ensures Read(S'.mem, L.slots[s.addr]) == Read(S.mem, L.slots[s.addr]) ==> BindingOf(S', s) == BindingOf(S, s)
  {
    assert InStub(s, s.addr);
    if s.entry != 4 { assert InStub(s, s.addr + 4) && InStub(s, s.addr + 8); }
    if s.entry == 16 { assert InStub(s, s.addr + 12); }
  }

  lemma TrampolineFrame(S: Linker, S': Linker, n: string)
    requires n in S.nonLazy && TrampolineOk(S, n) && S.linked <= S'.linked
    requires n in S'.nonLazy && S'.nonLazy[n] == S.nonLazy[n]
    requires Read(S'.mem, S.nonLazy[n]) == Read(S.mem, S.nonLazy[n])
    requires Read(S'.mem, S.nonLazy[n] + 4) == Read(S.mem, S.nonLazy[n] + 4)
    ensures TrampolineOk(S', n)
  {}

  lemma TranslateKeeps(L: Layout, S: Linker, a: int)
    requires LayoutOk(L) && Inv(L, S)
    ensures Inv(L, Apply(L, S, Translate(a))) && Extends(L, S, Apply(L, S, Translate(a)))
  {
    hide StubOk, BindingOf, TrampolineOk;
    var S' := Apply(L, S, Translate(a));
    forall s | s in L.stubs ensures StubOk(L, S', s) && BindingOf(S', s) == BindingOf(S, s) {
      StubFrame(L, S, S', s);
    }
    forall s, b: int | s in L.stubs && InStub(s, b) ensures FreshAt(S', b) { assert FreshAt(S, b); }
    forall n | n in S'.nonLazy ensures TrampolineOk(S', n) { TrampolineFrame(S, S', n); }
  }

  lemma GuestStoreKeeps(L: Layout, S: Linker, a: int, v: Word)
    requires LayoutOk(L) && Inv(L, S) && Unowned(L, S, a)
    ensures Inv(L, Apply(L, S, GuestStore(a, v))) && Extends(L, S, Apply(L, S, GuestStore(a, v)))
  {
    hide StubOk, BindingOf, TrampolineOk;
    var S' := Apply(L, S, GuestStore(a, v));
    forall s | s in L.stubs ensures StubOk(L, S', s) && BindingOf(S', s) == BindingOf(S, s) {
      StubFrame(L, S, S', s);
    }
    forall s, b: int | s in L.stubs && InStub(s, b) ensures FreshAt(S', b) { assert FreshAt(S, b); }
    forall n | n in S'.nonLazy ensures TrampolineOk(S', n) { TrampolineFrame(S, S', n); }
  }

  lemma ForgetKeeps(L: Layout, S: Linker, base: int, size: nat)
    requires LayoutOk(L) && Inv(L, S)
    ensures Inv(L, S.(icache := Forget(S.icache, base, size)))
    ensures Extends(L, S, S.(icache := Forget(S.icache, base, size)))
  {
    hide StubOk, BindingOf, TrampolineOk;
    var S' := S.(icache := Forget(S.icache, base, size));
    forall s | s in L.stubs ensures StubOk(L, S', s) && BindingOf(S', s) == BindingOf(S, s) {
      StubFrame(L, S, S', s);
    }
    forall s, b: int | s in L.stubs && InStub(s, b) ensures FreshAt(S', b) { assert FreshAt(S, b); }
    forall n | n in S'.nonLazy ensures TrampolineOk(S', n) { TrampolineFrame(S, S', n); }
  }

  /** Writing a trampoline into a fresh allocation, with its own words forgotten by the JIT. */
  function NewTrampoline(S: Linker, name: string, f: HostFunction, at: int): Linker
    requires |S.linked| < MAX_LINKED
  {
    Linker(S.mem[at := EncodeSvc(LinkedSvc(12, |S.linked|))][at + 4 := BX_LR],
           Forget(S.icache, at - at % 2, 8), S.linked + [f], S.nonLazy[name := at])
  }

  lemma NewTrampolineKeepsStubs(L: Layout, S: Linker, name: string, f: HostFunction, at: int)
    requires LayoutOk(L) && Inv(L, S) && |S.linked| < MAX_LINKED && AllocationOk(L, S, at)
    ensures var S' := NewTrampoline(S, name, f, at);
      && (forall s | s in L.stubs :: StubOk(L, S', s) && BindingOf(S', s) == BindingOf(S, s))
      && (forall s, b: int | s in L.stubs && InStub(s, b) :: FreshAt(S', b))
  {
    var S' := NewTrampoline(S, name, f, at);
    forall s | s in L.stubs ensures StubOk(L, S', s) && BindingOf(S', s) == BindingOf(S, s) {
      assert Apart(L, s, at);
      StubFrame(L, S, S', s);
    }
    forall s, b: int | s in L.stubs && InStub(s, b) ensures FreshAt(S', b) {
      assert FreshAt(S, b) && Apart(L, s, at);
    }
  }

  lemma NewTrampolineOk(S: Linker, name: string, f: HostFunction, at: int)
    requires |S.linked| < MAX_LINKED && at % 4 == 0 && 0 <= at && at + 8 <= 0x1_0000_0000
    requires f == (if name == "dyld_stub_binder" then StubBinder else Export(name))
    ensures var S' := NewTrampoline(S, name, f, at);
      TrampolineOk(S', name) && FreshAt(S', at) && FreshAt(S', at + 4)
  {
    var w := EncodeSvc(LinkedSvc(12, |S.linked|));
    assert HostIndex(w) == |S.linked|;
    assert Read(NewTrampoline(S, name, f, at).mem, at) == w;
  }

  lemma OldTrampolineKept(L: Layout, S: Linker, name: string, f: HostFunction, at: int, n: string)
    requires LayoutOk(L) && Inv(L, S) && |S.linked| < MAX_LINKED && AllocationOk(L, S, at)
    requires name !in S.nonLazy && n in S.nonLazy
    ensures var S' := NewTrampoline(S, name, f, at);
      TrampolineOk(S', n) && FreshAt(S', S.nonLazy[n]) && FreshAt(S', S.nonLazy[n] + 4)
  {
    TrampolineFrame(S, NewTrampoline(S, name, f, at), n);
  }

  lemma ApartAfterInsert(L: Layout, S: Linker, name: string, at: int)
    requires LayoutOk(L) && Inv(L, S) && AllocationOk(L, S, at)
    ensures TrampolinesApart(L, S.nonLazy[name := at])
  {}

  lemma NewTrampolineKeeps(L: Layout, S: Linker, name: string, f: HostFunction, at: int)
    requires LayoutOk(L) && Inv(L, S) && |S.linked| < MAX_LINKED && AllocationOk(L, S, at)
    requires name !in S.nonLazy && f == (if name == "dyld_stub_binder" then StubBinder else Export(name))
    ensures Inv(L, NewTrampoline(S, name, f, at)) && Extends(L, S, NewTrampoline(S, name, f, at))
  {
    var S' := NewTrampoline(S, name, f, at);
    NewTrampolineKeepsStubs(L, S, name, f, at);
    forall n | n in S'.nonLazy
      ensures TrampolineOk(S', n) && FreshAt(S', S'.nonLazy[n]) && FreshAt(S', S'.nonLazy[n] + 4)
    {
      if n == name { NewTrampolineOk(S, name, f, at); } else { OldTrampolineKept(L, S, name, f, at, n); }
    }
    assert StubsInv(L, S') && TrampolinesInv(S');
    ApartAfterInsert(L, S, name, at);
  }

  lemma ProcAddressKeeps(L: Layout, S: Linker, symbol: string, at: int)
    requires LayoutOk(L) && Inv(L, S) && |S.linked| < MAX_LINKED && AllocationOk(L, S, at)
    ensures Inv(L, ProcAddress(L, S, symbol, at).0) && Extends(L, S, ProcAddress(L, S, symbol, at).0)
  {
    hide Inv, Forget, AllocationOk;
    var e := ProcEntry(L, symbol);
    if e.Some? {
      if e.value.0 in S.nonLazy {
        ForgetKeeps(L, S, S.nonLazy[e.value.0] - S.nonLazy[e.value.0] % 2, 8);
      } else {
        NewTrampolineKeeps(L, S, e.value.0, e.value.1, at);
      }
    }
  }

  /** Asking for the address of a function gives none exactly if the host has none of that name; the
      binder has two spellings. It gives the same trampoline each time, and a new one where the
      allocation is. */
  lemma ProcAddressFinds(L: Layout, S: Linker, symbol: string, at: int)
    requires |S.linked| < MAX_LINKED
    ensures var binder := symbol in {"dyld_stub_binder", "_dyld_stub_binder"};
      var name := if binder then "dyld_stub_binder" else symbol;
      var (S', a) := ProcAddress(L, S, symbol, at);
      && (a.None? <==> !binder && symbol !in L.hostExports)
      && (a.None? ==> S' == S)
      && (a.Some? && name in S.nonLazy ==>
            a.value == S.nonLazy[name] && S'.nonLazy == S.nonLazy && S'.mem == S.mem && S'.linked == S.linked)
      && (a.Some? && name !in S.nonLazy ==>
            && a.value == at && S'.nonLazy == S.nonLazy[name := at] && |S'.linked| == |S.linked| + 1
            && S'.linked[|S.linked|] == (if binder then StubBinder else Export(symbol)))
  {}

  /** The rewritten stub's slot is found through a literal that the rewriting leaves alone. */
  lemma RestoreMeaning(L: Layout, S: Linker, s: Stub, target: Word)
    requires LayoutOk(L) && s in L.stubs && StubOk(L, S, s)
    ensures var S' := RestoreStub(S, s, target);
      && S'.mem == RestoredWords(S.mem, s)[L.slots[s.addr] := target]
      && StubOk(L, S', s) && Restored(S'.mem, s) && BindingOf(S', s) == Bound(Guest(target))
  {
    var mem := RestoredWords(S.mem, s);
    assert !InStub(s, L.slots[s.addr]);
    assert Slot(mem, s) == L.slots[s.addr];
    var S' := RestoreStub(S, s, target);
    assert Restored(S'.mem, s);
    assert Slot(S'.mem, s) == L.slots[s.addr];
  }

  lemma RestoreKeepsStubs(L: Layout, S: Linker, s: Stub, target: Word)
    requires LayoutOk(L) && Inv(L, S) && s in L.stubs
    ensures StubsInv(L, RestoreStub(S, s, target))
    ensures forall t | t in L.stubs && t != s :: BindingOf(RestoreStub(S, s, target), t) == BindingOf(S, t)
  {
    hide StubOk, BindingOf, RestoreStub, TrampolineOk;
    RestoreMeaning(L, S, s, target);
    forall t | t in L.stubs && t != s
      ensures StubOk(L, RestoreStub(S, s, target), t) && BindingOf(RestoreStub(S, s, target), t) == BindingOf(S, t)
    {
      RestoreKeepsStub(L, S, s, target, t);
    }
    forall t, a: int | t in L.stubs && InStub(t, a) ensures FreshAt(RestoreStub(S, s, target), a) {
      RestoredFresh(L, S, s, target, t, a);
    }
  }

  lemma RestoreKeepsStub(L: Layout, S: Linker, s: Stub, target: Word, t: Stub)
    requires LayoutOk(L) && Inv(L, S) && s in L.stubs && t in L.stubs && t != s
    ensures StubOk(L, RestoreStub(S, s, target), t) && BindingOf(RestoreStub(S, s, target), t) == BindingOf(S, t)
  {
    hide BindingOf, TrampolineOk, FreshAt;
    assert StubOk(L, S, s) && StubOk(L, S, t);
    hide Inv;
    RestoreMeaning(L, S, s, target);
    assert StubsApart(s, t) && !InStub(t, L.slots[s.addr]) && !InStub(s, L.slots[t.addr]);
    hide StubOk;
    StubFrame(L, S, RestoreStub(S, s, target), t);
  }

  lemma RestoredFresh(L: Layout, S: Linker, s: Stub, target: Word, t: Stub, a: int)
    requires LayoutOk(L) && Inv(L, S) && s in L.stubs && t in L.stubs && InStub(t, a)
    ensures FreshAt(RestoreStub(S, s, target), a)
  {
    hide BindingOf, TrampolineOk;
    assert FreshAt(S, a) && StubOk(L, S, s) && !InStub(t, L.slots[s.addr]);
    hide Inv, StubOk;
    RestoreMeaning(L, S, s, target);
    if t != s { assert StubsApart(s, t); }
  }

  lemma RestoreKeeps(L: Layout, S: Linker, s: Stub, target: Word)
    requires LayoutOk(L) && Inv(L, S) && s in L.stubs && BindingOf(S, s) == Unbound
    ensures Inv(L, RestoreStub(S, s, target)) && Extends(L, S, RestoreStub(S, s, target))
  {
    hide StubOk, TrampolineOk, FreshAt, BindingOf, Slot, RestoredWords;
    var S' := RestoreStub(S, s, target);
    RestoreKeepsStubs(L, S, s, target);
    forall n | n in S'.nonLazy
      ensures TrampolineOk(S', n) && FreshAt(S', S'.nonLazy[n]) && FreshAt(S', S'.nonLazy[n] + 4)
    {
      RestoreKeepsTrampoline(L, S, s, target, n);
    }
  }

  lemma RestoreKeepsTrampoline(L: Layout, S: Linker, s: Stub, target: Word, n: string)
    requires LayoutOk(L) && Inv(L, S) && s in L.stubs && n in S.nonLazy
    ensures var S' := RestoreStub(S, s, target);
      TrampolineOk(S', n) && FreshAt(S', S.nonLazy[n]) && FreshAt(S', S.nonLazy[n] + 4)
  {
    assert StubOk(L, S, s) && Apart(L, s, S.nonLazy[n]);
    assert TrampolineOk(S, n) && FreshAt(S, S.nonLazy[n]) && FreshAt(S, S.nonLazy[n] + 4);
    hide Inv, StubOk, TrampolineOk, BindingOf;
    RestoreMeaning(L, S, s, target);
    TrampolineFrame(S, RestoreStub(S, s, target), n);
  }

  lemma BindHostMeaning(L: Layout, S: Linker, s: Stub, f: HostFunction)
    requires LayoutOk(L) && s in L.stubs && StubOk(L, S, s) && BindingOf(S, s) == Unbound && |S.linked| < MAX_LINKED
    ensures StubOk(L, BindHost(S, s, f), s) && BindingOf(BindHost(S, s, f), s) == Bound(Host(f))
  {
    var w := EncodeSvc(LinkedSvc(s.entry, |S.linked|));
    assert HostIndex(w) == |S.linked| && IsSvc(w) && w != EncodeSvc(LazySvc(s.entry));
    assert Read(BindHost(S, s, f).mem, s.addr) == w;
  }

  lemma BindHostKeepsStubs(L: Layout, S: Linker, s: Stub, f: HostFunction)
    requires LayoutOk(L) && Inv(L, S) && s in L.stubs && BindingOf(S, s) == Unbound && |S.linked| < MAX_LINKED
    ensures StubsInv(L, BindHost(S, s, f))
    ensures forall t | t in L.stubs && t != s :: BindingOf(BindHost(S, s, f), t) == BindingOf(S, t)
  {
    var S' := BindHost(S, s, f);
    BindHostMeaning(L, S, s, f);
    forall t | t in L.stubs && t != s ensures StubOk(L, S', t) && BindingOf(S', t) == BindingOf(S, t) {
      assert StubsApart(s, t) && !InStub(s, L.slots[t.addr]);
      StubFrame(L, S, S', t);
    }
    forall t, a: int | t in L.stubs && InStub(t, a) ensures FreshAt(S', a) {
      assert FreshAt(S, a);
      if t != s { assert StubsApart(s, t); }
    }
  }

  lemma BindHostKeeps(L: Layout, S: Linker, s: Stub, f: HostFunction)
    requires LayoutOk(L) && Inv(L, S) && s in L.stubs && BindingOf(S, s) == Unbound && |S.linked| < MAX_LINKED
    ensures Inv(L, BindHost(S, s, f)) && Extends(L, S, BindHost(S, s, f))
  {
    var S' := BindHost(S, s, f);
    BindHostKeepsStubs(L, S, s, f);
    hide StubOk, TrampolineOk, FreshAt, BindingOf, BindHost;
    forall n | n in S.nonLazy
      ensures TrampolineOk(S', n) && FreshAt(S', S.nonLazy[n]) && FreshAt(S', S.nonLazy[n] + 4)
    {
      BindHostKeepsTrampoline(L, S, s, f, n);
    }
    BindHostTables(S, s, f);
  }

  lemma BindHostTables(S: Linker, s: Stub, f: HostFunction)
    requires |S.linked| < MAX_LINKED
    ensures var S' := BindHost(S, s, f); S'.nonLazy == S.nonLazy && S'.linked == S.linked + [f]
  {}

  lemma BindHostKeepsTrampoline(L: Layout, S: Linker, s: Stub, f: HostFunction, n: string)
    requires LayoutOk(L) && Inv(L, S) && s in L.stubs && |S.linked| < MAX_LINKED && n in S.nonLazy
    ensures var S' := BindHost(S, s, f);
      TrampolineOk(S', n) && FreshAt(S', S.nonLazy[n]) && FreshAt(S', S.nonLazy[n] + 4)
  {
    assert Apart(L, s, S.nonLazy[n]);
    assert TrampolineOk(S, n) && FreshAt(S, S.nonLazy[n]) && FreshAt(S, S.nonLazy[n] + 4);
    hide Inv, TrampolineOk, EncodeSvc, LinkedSvc;
    TrampolineFrame(S, BindHost(S, s, f), n);
  }

  /** A first call binds the stub to the preferred target and disturbs nothing else. */
  lemma FirstCallBinds(L: Layout, S: Linker, s: Stub)
    requires LayoutOk(L) && Inv(L, S) && s in L.stubs && BindingOf(S, s) == Unbound && |S.linked| < MAX_LINKED
    ensures Inv(L, LazyLink(L, S, s).0) && Extends(L, S, LazyLink(L, S, s).0)
    ensures BindingOf(LazyLink(L, S, s).0, s) == Bound(Resolve(L, S.nonLazy, s.symbol))
    ensures forall t | t in L.stubs && t != s :: BindingOf(LazyLink(L, S, s).0, t) == BindingOf(S, t)
    ensures LazyLink(L, S, s).1 ==
      match Resolve(L, S.nonLazy, s.symbol) case Guest(_) => None case Host(f) => Some(f)
  {
    match Resolve(L, S.nonLazy, s.symbol)
    case Guest(a) =>
      RestoreMeaning(L, S, s, a);
      RestoreKeeps(L, S, s, a);
      RestoreKeepsStubs(L, S, s, a);
    case Host(f) =>
      BindHostMeaning(L, S, s, f);
      BindHostKeeps(L, S, s, f);
      BindHostKeepsStubs(L, S, s, f);
  }

  // ---- What a first call prefers ----

  predicate NoneExports(bins: seq<Binary>, symbol: string) { forall j | 0 <= j < |bins| :: symbol !in bins[j].exports }

  predicate IsFirstExporter(bins: seq<Binary>, symbol: string, k: nat) {
    k < |bins| && symbol in bins[k].exports && NoneExports(bins[..k], symbol)
  }

  /** Where calls to a symbol belong: at a trampoline handed out for it; else at the address the first
      binary exporting it gives; else at the host's function; else at the stub that returns 0. */
  ghost predicate IsPreferred(L: Layout, nonLazy: map<string, int>, symbol: string, t: Target) {
    && (symbol in nonLazy ==> t.Guest? && t.addr == nonLazy[symbol])
    && (forall k: nat | symbol !in nonLazy && IsFirstExporter(L.bins, symbol, k) ::
          t == Guest(L.bins[k].exports[symbol]))
    && (t == Host(Export(symbol)) <==>
          symbol !in nonLazy && NoneExports(L.bins, symbol) && symbol in L.hostExports)
    && (t == Host(Unimplemented(symbol)) <==>
          symbol !in nonLazy && NoneExports(L.bins, symbol) && symbol !in L.hostExports)
  }

  lemma {:induction false} FirstExportIsFirst(bins: seq<Binary>, symbol: string)
    ensures FirstExport(bins, symbol).None? <==> NoneExports(bins, symbol)
    ensures forall k: nat | IsFirstExporter(bins, symbol, k) :: FirstExport(bins, symbol) == Some(bins[k].exports[symbol])
  {
    if bins != [] {
      FirstExportIsFirst(bins[1..], symbol);
      forall k: nat | IsFirstExporter(bins, symbol, k)
        ensures FirstExport(bins, symbol) == Some(bins[k].exports[symbol])
      {
        if k > 0 {
          assert bins[..k][0] == bins[0] && bins[1..][..k - 1] == bins[..k][1..];
          assert IsFirstExporter(bins[1..], symbol, k - 1);
        }
      }
    }
  }

  lemma ResolvePrefers(L: Layout, S: Linker, symbol: string)
    requires LayoutOk(L) && Inv(L, S)
    ensures IsPreferred(L, S.nonLazy, symbol, Resolve(L, S.nonLazy, symbol))
  {
    FirstExportIsFirst(L.bins, symbol);
    if symbol in S.nonLazy { assert TrampolineOk(S, symbol); }
  }

  /** The stub is entry i of the stub section of binary b. */
  predicate IsEntry(bins: seq<Binary>, b: nat, i: nat, s: Stub) {
    && b < |bins| && bins[b].stubs.Some? && bins[b].stubs.value.entry > 0 && i < |bins[b].stubs.value.symbols|
    && s.addr == bins[b].stubs.value.addr + i * bins[b].stubs.value.entry
  }

  lemma EntryInSection(sec: StubSection, i: nat)
    requires sec.entry > 0 && i < |sec.symbols|
    ensures var pc := sec.addr + i * sec.entry;
      sec.addr <= pc < sec.addr + sec.Size() && (pc - sec.addr) % sec.entry == 0 && (pc - sec.addr) / sec.entry == i
  {
    MulMonotone(sec.entry, i + 1, |sec.symbols|);
    ExactDivision(i, sec.entry);
  }

  lemma ExactDivision(i: nat, e: nat)
    requires e > 0
    ensures (i * e) / e == i && (i * e) % e == 0
  {
    Quotient(i * e, e, i);
  }

  lemma Quotient(n: nat, e: nat, i: nat)
    requires e > 0 && n == e * i
    ensures n / e == i && n % e == 0
  {
    var q, r := n / e, n % e;
    assert e * q + r == n;
    if q < i { MulMonotone(e, q + 1, i); } else if i < q { MulMonotone(e, i + 1, q); }
  }

  /** Entry i of a section is the stub of the section's i-th symbol. A 4-byte stub finds its pointer by
      the distance of the two sections: for entry i, 8 bytes past the i-th lazy pointer. */
  lemma StubOfEntry(L: Layout, s: Stub, b: nat, i: nat)
    requires Loaded(L) && s in L.stubs && IsEntry(L.bins, b, i, s)
    ensures var bin := L.bins[b];
      && s.symbol == bin.stubs.value.symbols[i] && s.entry == bin.stubs.value.entry
      && (bin.lazyPointers.Some? && s.entry == 4 ==>
            forall mem :: Slot(mem, s) == Wrap(bin.lazyPointers.value + 4 * i + 8))
      && (bin.lazyPointers.None? && s.entry == 4 ==> forall mem :: Slot(mem, s) == Wrap(s.addr + 8))
  {
    var sec := L.bins[b].stubs.value;
    EntryInSection(sec, i);
    FoundInOwnSection(L, s, b);
    hide Loaded, FindStub, Slot, Wrap;
    if s.entry == 4 { ShortSlot(s, sec.addr, L.bins[b].lazyPointers, i); }
  }

  lemma ShortSlot(s: Stub, sec: int, lazyPointers: Option<int>, i: nat)
    requires s.entry == 4 && s.addr == sec + i * 4
    requires s.picOffset == if lazyPointers.Some? then Wrap(lazyPointers.value - sec) else 0
    ensures forall mem :: Slot(mem, s) == if lazyPointers.Some? then Wrap(lazyPointers.value + 4 * i + 8) else Wrap(s.addr + 8)
  {}

  /** A stub that starts in the section of a binary is that binary's. */
  lemma FoundInOwnSection(L: Layout, s: Stub, b: nat)
    requires Loaded(L) && s in L.stubs && b < |L.bins| && L.bins[b].stubs.Some?
    requires var sec := L.bins[b].stubs.value; sec.addr <= s.addr < sec.addr + sec.Size()
    ensures StubAt(L.bins[b], s.addr) == Some(s)
  {
    var j := FoundInSection(L.bins, s.addr);
    StubInSection(L.bins[j], s);
    assert j == b;
  }

  /** Every rewritten stub is such an entry. */
  lemma EntryOfStub(L: Layout, s: Stub) returns (b: nat, i: nat)
    requires Loaded(L) && s in L.stubs
    ensures IsEntry(L.bins, b, i, s)
  {
    b := FoundInSection(L.bins, s.addr);
    StubInSection(L.bins[b], s);
    hide Loaded, FindStub, StubAt;
    var sec := L.bins[b].stubs.value;
    IndexInSection(sec, s.addr);
    i := (s.addr - sec.addr) / sec.entry;
    Multiple(s.addr - sec.addr, sec.entry);
  }

  lemma Multiple(n: int, e: nat)
    requires e > 0 && n % e == 0
    ensures n == n / e * e
  {}

  /** The binding is the one calls to the symbol of the stub's entry prefer. */
  ghost predicate BoundAsPreferred(L: Layout, nonLazy: map<string, int>, s: Stub, binding: Binding) {
    && binding.Bound? && (exists b: nat, i: nat :: IsEntry(L.bins, b, i, s))
    && forall b: nat, i: nat | IsEntry(L.bins, b, i, s) ::
         IsPreferred(L, nonLazy, L.bins[b].stubs.value.symbols[i], binding.target)
  }

  /** A first call binds the stub to what calls to the symbol of its entry prefer. */
  lemma FirstCallPrefers(L: Layout, S: Linker, s: Stub)
    requires Loaded(L) && LayoutOk(L) && Inv(L, S) && s in L.stubs && BindingOf(S, s) == Unbound && |S.linked| < MAX_LINKED
    ensures BoundAsPreferred(L, S.nonLazy, s, BindingOf(LazyLink(L, S, s).0, s))
  {
    FirstCallBinds(L, S, s);
    ResolvePrefers(L, S, s.symbol);
    hide Inv, IsPreferred, LazyLink, BindingOf, Resolve, LayoutOk;
    var b0, i0 := EntryOfStub(L, s);
    forall b: nat, i: nat | IsEntry(L.bins, b, i, s) ensures L.bins[b].stubs.value.symbols[i] == s.symbol {
      StubOfEntry(L, s, b, i);
    }
  }

  lemma EventKeeps(L: Layout, S: Linker, e: Event)
    requires LayoutOk(L) && Inv(L, S) && EventOk(L, S, e)
    ensures Inv(L, Apply(L, S, e)) && Extends(L, S, Apply(L, S, e))
  {
    match e
    case Translate(a) => TranslateKeeps(L, S, a);
    case GuestStore(a, v) => GuestStoreKeeps(L, S, a, v);
    case MakeProcAddress(symbol, at) => ProcAddressKeeps(L, S, symbol, at);
    case OtherFirstCall(s) => FirstCallBinds(L, S, s);
  }

  /** Over any interleaving of events the invariant holds and no bound stub changes target. */
  lemma {:induction false} EventsKeep(L: Layout, S: Linker, es: seq<Event>)
    requires LayoutOk(L) && Inv(L, S) && EventsOk(L, S, es)
    ensures Inv(L, ApplyAll(L, S, es)) && Extends(L, S, ApplyAll(L, S, es))
    decreases |es|
  {
    if es != [] {
      EventKeeps(L, S, es[0]);
      EventsKeep(L, Apply(L, S, es[0]), es[1..]);
    }
  }

  // ---- Executing stubs: the A32 instructions they consist of ----

  datatype Cpu = Cpu(r12: Word, lr: Word, pc: int, thumb: bool)

  datatype Instruction =
    | Svc(imm: nat) | BxLr | LdrR12Literal(offset: nat) | LdrPcLiteral(offset: nat) | AddR12Pc | LdrPcR12 | OtherCode

  function Decode(w: Word): Instruction {
    if IsSvc(w) then Svc(w - 0xef000000)
    else if w == BX_LR then BxLr
    else if LDR_R12_LITERAL <= w < LDR_R12_LITERAL + 0x1000 then LdrR12Literal(w - LDR_R12_LITERAL)
    else if LDR_PC_LITERAL <= w < LDR_PC_LITERAL + 0x1000 then LdrPcLiteral(w - LDR_PC_LITERAL)
    else if w == ADD_R12_PC_R12 then AddR12Pc
    else if w == LDR_PC_R12 then LdrPcR12
    else OtherCode
  }

  /** The fields of an A32 instruction: condition and operation in the top twelve bits, then the
      registers n and d of four bits each, and an operand of twelve bits. */
  lemma DecodedFields(w: Word)
    ensures var op, n, d, operand := w / 0x100000, w / 0x10000 % 16, w / 0x1000 % 16, w % 0x1000;
      && (Decode(w).Svc? <==> w / 0x1000000 == 0xef) && (Decode(w).Svc? ==> Decode(w).imm == w % 0x1000000)
      && (Decode(w) == BxLr <==> op == 0xe12 && n == 15 && d == 15 && operand == 0xf1e)
      && (Decode(w).LdrR12Literal? <==> op == 0xe59 && n == 15 && d == 12)
      && (Decode(w).LdrR12Literal? ==> Decode(w).offset == operand)
      && (Decode(w).LdrPcLiteral? <==> op == 0xe59 && n == 15 && d == 15)
      && (Decode(w).LdrPcLiteral? ==> Decode(w).offset == operand)
      && (Decode(w) == AddR12Pc <==> op == 0xe08 && n == 15 && d == 12 && operand == 12)
      && (Decode(w) == LdrPcR12 <==> op == 0xe59 && n == 12 && d == 15 && operand == 0)
  {
    hide Decode;
    FieldsOf(w);
    DecodeByFields(w, w / 0x100000, w / 0x10000 % 16, w / 0x1000 % 16, w % 0x1000);
    DecodeSvc(w);
  }

  lemma FieldsOf(w: Word)
    ensures w == 0x100000 * (w / 0x100000) + 0x10000 * (w / 0x10000 % 16) + 0x1000 * (w / 0x1000 % 16) + w % 0x1000
  {
    assert w / 0x10000 / 16 == w / 0x100000 && w / 0x1000 / 16 == w / 0x10000;
  }

  lemma DecodeByFields(w: Word, op: int, n: int, d: int, operand: int)
    requires w == 0x100000 * op + 0x10000 * n + 0x1000 * d + operand
    requires 0 <= n < 16 && 0 <= d < 16 && 0 <= operand < 0x1000
    ensures Decode(w) == BxLr <==> op == 0xe12 && n == 15 && d == 15 && operand == 0xf1e
    ensures Decode(w).LdrR12Literal? <==> op == 0xe59 && n == 15 && d == 12
    ensures Decode(w).LdrR12Literal? ==> Decode(w).offset == operand
    ensures Decode(w).LdrPcLiteral? <==> op == 0xe59 && n == 15 && d == 15
    ensures Decode(w).LdrPcLiteral? ==> Decode(w).offset == operand
    ensures Decode(w) == AddR12Pc <==> op == 0xe08 && n == 15 && d == 12 && operand == 12
    ensures Decode(w) == LdrPcR12 <==> op == 0xe59 && n == 12 && d == 15 && operand == 0
  {}

  lemma DecodeSvc(w: Word)
    ensures Decode(w).Svc? <==> w / 0x1000000 == 0xef
    ensures Decode(w).Svc? ==> Decode(w).imm == w % 0x1000000
  {}

  /** A branch with interworking: bit 0 selects Thumb. */
  function Branch(c: Cpu, v: Word): Cpu { c.(pc := v - v % 2, thumb := v % 2 == 1) }

  /** The JIT executes what it has translated, and memory otherwise. */
  function Fetch(S: Linker, pc: int): Word { if pc in S.icache then S.icache[pc] else Read(S.mem, pc) }

  /** A trap: a host function runs inside it and gives PC and LR back as it found them, r12 not;
      with no function to run, the same instruction address is executed again. */
  predicate SvcStep(L: Layout, S: Linker, c: Cpu, imm: nat, S': Linker, c': Cpu, call: Option<HostFunction>) {
    && imm != SVC_THREAD_EXIT && imm != SVC_RETURN_TO_HOST && |S.linked| < MAX_LINKED
    && var r := SvcHandler(L, S, c.pc, imm);
       && S' == r.0 && call == r.1
       && (r.1 == None ==> c' == c)
       && (r.1 != None ==> c'.lr == c.lr)
       && (r.1 != None && imm >= SVC_LAZY_LINK_RET_FLAG ==> c' == Branch(c', c.lr))
       && (r.1 != None && imm < SVC_LAZY_LINK_RET_FLAG ==> c'.pc == c.pc + 4 && !c'.thumb)
  }

  /** The instructions other than traps; PC reads as the instruction's address plus 8. */
  function Execute(S: Linker, c: Cpu, i: Instruction): Cpu {
    match i
    case BxLr => Branch(c, c.lr)
    case LdrR12Literal(off) => c.(r12 := Read(S.mem, Wrap(c.pc + 8 + off)), pc := c.pc + 4)
    case LdrPcLiteral(off) => Branch(c, Read(S.mem, Wrap(c.pc + 8 + off)))
    case AddR12Pc => c.(r12 := Wrap(c.pc + 8 + c.r12), pc := c.pc + 4)
    case LdrPcR12 => Branch(c, Read(S.mem, c.r12))
    case _ => c
  }

  /** One instruction. The predicate is false once control has left the linker's code. */
  predicate ThreadStep(L: Layout, S: Linker, c: Cpu, S': Linker, c': Cpu, call: Option<HostFunction>) {
    var i := Decode(Fetch(S, c.pc));
    && !c.thumb && i != OtherCode
    && if i.Svc? then SvcStep(L, S, c, i.imm, S', c', call) else S' == S && call == None && c' == Execute(S, c, i)
  }

  /** A thread's instructions, each followed by any events of the rest of the system. */
  datatype Tick = Tick(call: Option<HostFunction>, after: Linker, others: seq<Event>)
  datatype Trace = Trace(states: seq<Linker>, cpus: seq<Cpu>, ticks: seq<Tick>)

  ghost predicate TickOk(L: Layout, tr: Trace, i: nat)
    requires LayoutOk(L) && i < |tr.ticks| && |tr.states| == |tr.cpus| == |tr.ticks| + 1
  {
    var t := tr.ticks[i];
    && ThreadStep(L, tr.states[i], tr.cpus[i], t.after, tr.cpus[i + 1], t.call)
    && EventsOk(L, t.after, t.others)
    && tr.states[i + 1] == ApplyAll(L, t.after, t.others)
  }

  ghost predicate TraceOk(L: Layout, tr: Trace)
    requires LayoutOk(L)
  {
    |tr.states| == |tr.cpus| == |tr.ticks| + 1 && forall i | 0 <= i < |tr.ticks| :: TickOk(L, tr, i)
  }

  /** The host functions a trace prefix called, in order. */
  function Calls(ticks: seq<Tick>): seq<HostFunction> {
    if ticks == [] then [] else
      Calls(ticks[..|ticks| - 1]) + (if ticks[|ticks| - 1].call.Some? then [ticks[|ticks| - 1].call.value] else [])
  }

  /** The target a call made now must reach: the one bound already, or the preferred one. */
  function TargetOf(L: Layout, S: Linker, s: Stub): Target {
    match BindingOf(S, s) case Bound(t) => t case Unbound => Resolve(L, S.nonLazy, s.symbol)
  }

  /** How many instructions a stub of each shape takes from its first word to its target. */
  function Length(s: Stub, t: Target): nat {
    match t
    case Host(_) => if s.entry == 4 then 1 else 2
    case Guest(_) => if s.entry == 4 then 1 else if s.entry == 12 then 2 else 3
  }

  function CallLength(L: Layout, S: Linker, s: Stub): nat {
    Length(s, TargetOf(L, S, s)) + (if BindingOf(S, s) == Unbound && TargetOf(L, S, s).Guest? then 1 else 0)
  }

  /** Control is at a guest target with LR still the caller's, or back at LR for a host target. */
  predicate Arrived(c: Cpu, lr: Word, t: Target) {
    && c.lr == lr
    && match t
       case Guest(a) => c.pc == a - a % 2 && c.thumb == (a % 2 == 1)
       case Host(_) => c.pc == lr - lr % 2 && c.thumb == (lr % 2 == 1)
  }

  function CallsFor(t: Target): seq<HostFunction> { match t case Guest(_) => [] case Host(f) => [f] }

  lemma FetchAtStub(L: Layout, S: Linker, s: Stub, a: int)
    requires LayoutOk(L) && Inv(L, S) && s in L.stubs && InStub(s, a)
    ensures Fetch(S, a) == Read(S.mem, a)
  {
    assert FreshAt(S, a);
  }

  /** The trap of an unbound stub binds it, and calls the function if that is a host one. */
  lemma FirstTrap(L: Layout, S: Linker, c: Cpu, S': Linker, c': Cpu, call: Option<HostFunction>, s: Stub)
    requires Loaded(L) && LayoutOk(L) && Inv(L, S) && s in L.stubs && BindingOf(S, s) == Unbound
    requires c.pc == s.addr && ThreadStep(L, S, c, S', c', call)
    ensures |S.linked| < MAX_LINKED && S' == LazyLink(L, S, s).0
    ensures match Resolve(L, S.nonLazy, s.symbol)
      case Guest(_) => call == None && c' == c
      case Host(f) => (
        && call == Some(f) && c'.lr == c.lr
        && (if s.entry == 4 then Arrived(c', c.lr, Host(f)) else c'.pc == s.addr + 4 && !c'.thumb))
  {
    FetchAtStub(L, S, s, s.addr);
    assert StubOk(L, S, s);
    assert Decode(Fetch(S, c.pc)) == Svc(LazySvc(s.entry));
  }

  lemma HostTrap(L: Layout, S: Linker, c: Cpu, S': Linker, c': Cpu, call: Option<HostFunction>, s: Stub)
    requires LayoutOk(L) && Inv(L, S) && s in L.stubs
    requires BindingOf(S, s).Bound? && BindingOf(S, s).target.Host?
    requires c.pc == s.addr && ThreadStep(L, S, c, S', c', call)
    ensures S' == S && call == Some(BindingOf(S, s).target.f) && c'.lr == c.lr
    ensures if s.entry == 4 then Arrived(c', c.lr, BindingOf(S, s).target) else c'.pc == s.addr + 4 && !c'.thumb
  {
    FetchAtStub(L, S, s, s.addr);
    assert StubOk(L, S, s);
    var w := Read(S.mem, s.addr);
    assert Decode(w) == Svc(LinkedSvc(s.entry, HostIndex(w)));
  }

  lemma ReturnStep(L: Layout, S: Linker, c: Cpu, S': Linker, c': Cpu, call: Option<HostFunction>, s: Stub)
    requires LayoutOk(L) && Inv(L, S) && s in L.stubs && s.entry != 4
    requires BindingOf(S, s).Bound? && BindingOf(S, s).target.Host?
    requires c.pc == s.addr + 4 && ThreadStep(L, S, c, S', c', call)
    ensures S' == S && call == None && Arrived(c', c.lr, BindingOf(S, s).target)
  {
    FetchAtStub(L, S, s, s.addr + 4);
    assert StubOk(L, S, s);
    assert Decode(BX_LR) == BxLr;
  }

  /** After k instructions of a restored stub: r12 holds the literal, then the slot's address. */
  predicate MidStub(L: Layout, S: Linker, c: Cpu, s: Stub, k: nat)
    requires s.addr in L.slots
  {
    && !c.thumb && c.pc == s.addr + 4 * k
    && (s.entry == 12 && k == 1 ==> c.r12 == L.slots[s.addr])
    && (s.entry == 16 && k == 1 ==> Wrap(s.addr + 12 + c.r12) == L.slots[s.addr])
    && (s.entry == 16 && k == 2 ==> c.r12 == L.slots[s.addr])
  }

  /** The k-th instruction of a restored stub. */
  function CodeAt(s: Stub, k: nat): Instruction
    requires k < 3 && 0 <= s.picOffset
  {
    if s.entry == 4 then LdrPcLiteral(s.picOffset)
    else if s.entry == 12 then (if k == 0 then LdrR12Literal(0) else LdrPcR12)
    else (if k == 0 then LdrR12Literal(4) else if k == 1 then AddR12Pc else LdrPcR12)
  }

  lemma RestoredCode(L: Layout, S: Linker, s: Stub)
    requires LayoutOk(L) && Inv(L, S) && s in L.stubs
    requires BindingOf(S, s).Bound? && BindingOf(S, s).target.Guest?
    ensures forall k: nat | k < Length(s, BindingOf(S, s).target) :: Decode(Read(S.mem, s.addr + 4 * k)) == CodeAt(s, k)
    ensures Slot(S.mem, s) == L.slots[s.addr]
    ensures BindingOf(S, s).target == Guest(Read(S.mem, L.slots[s.addr]))
  {
    assert StubOk(L, S, s) && Restored(S.mem, s);
  }

  lemma GuestStep(L: Layout, S: Linker, c: Cpu, S': Linker, c': Cpu, call: Option<HostFunction>, s: Stub, k: nat)
    requires LayoutOk(L) && Inv(L, S) && s in L.stubs
    requires BindingOf(S, s).Bound? && BindingOf(S, s).target.Guest? && k < Length(s, BindingOf(S, s).target)
    requires MidStub(L, S, c, s, k) && ThreadStep(L, S, c, S', c', call)
    ensures S' == S && call == None && c'.lr == c.lr
    ensures if k + 1 < Length(s, BindingOf(S, s).target) then MidStub(L, S, c', s, k + 1)
            else Arrived(c', c.lr, BindingOf(S, s).target)
  {
    RestoredCode(L, S, s);
    RestoredInstruction(L, S, c, s, k);
    hide Inv, BindingOf, Fetch, Decode, SvcHandler;
    assert c' == Execute(S, c, CodeAt(s, k));
  }

  lemma RestoredInstruction(L: Layout, S: Linker, c: Cpu, s: Stub, k: nat)
    requires LayoutOk(L) && Inv(L, S) && s in L.stubs
    requires BindingOf(S, s).Bound? && BindingOf(S, s).target.Guest? && k < Length(s, BindingOf(S, s).target)
    requires c.pc == s.addr + 4 * k
    ensures Decode(Fetch(S, c.pc)) == CodeAt(s, k)
  {
    RestoredCode(L, S, s);
    hide BindingOf, StubOk;
    assert InStub(s, c.pc);
    FetchAtStub(L, S, s, c.pc);
  }

  lemma CallsStep(ticks: seq<Tick>, i: nat)
    requires i < |ticks|
    ensures Calls(ticks[..i + 1]) == Calls(ticks[..i]) + (if ticks[i].call.Some? then [ticks[i].call.value] else [])
  {
    assert ticks[..i + 1][..i] == ticks[..i];
  }

  /** A tick at which the thread's own instruction keeps the invariant and this stub's target
      leaves both as they were after everybody else's events, too. */
  lemma TickKeeps(L: Layout, tr: Trace, i: nat, s: Stub, t: Target)
    requires LayoutOk(L) && TraceOk(L, tr) && i < |tr.ticks| && s in L.stubs
    requires Inv(L, tr.ticks[i].after) && BindingOf(tr.ticks[i].after, s) == Bound(t)
    ensures Inv(L, tr.states[i + 1]) && BindingOf(tr.states[i + 1], s) == Bound(t)
  {
    assert TickOk(L, tr, i);
    EventsKeep(L, tr.ticks[i].after, tr.ticks[i].others);
  }

  /** Executing a restored stub from its k-th instruction, starting at tick i. */
  lemma {:induction false} GuestRun(L: Layout, tr: Trace, i: nat, s: Stub, t: Target, k: nat)
    requires LayoutOk(L) && TraceOk(L, tr) && s in L.stubs && t.Guest? && k < Length(s, t)
    requires i + Length(s, t) - k <= |tr.ticks|
    requires Inv(L, tr.states[i]) && BindingOf(tr.states[i], s) == Bound(t) && MidStub(L, tr.states[i], tr.cpus[i], s, k)
    ensures var n := i + Length(s, t) - k;
      && Arrived(tr.cpus[n], tr.cpus[i].lr, t) && Calls(tr.ticks[..n]) == Calls(tr.ticks[..i])
      && Inv(L, tr.states[n]) && BindingOf(tr.states[n], s) == Bound(t)
    decreases Length(s, t) - k
  {
    hide Inv, ThreadStep, BindingOf, EventsOk, ApplyAll;
    assert TickOk(L, tr, i);
    GuestStep(L, tr.states[i], tr.cpus[i], tr.ticks[i].after, tr.cpus[i + 1], tr.ticks[i].call, s, k);
    TickKeeps(L, tr, i, s, t);
    CallsStep(tr.ticks, i);
    if k + 1 < Length(s, t) { GuestRun(L, tr, i + 1, s, t, k + 1); }
  }

  lemma HostReturn(L: Layout, tr: Trace, s: Stub, t: Target)
    requires LayoutOk(L) && TraceOk(L, tr) && s in L.stubs && s.entry != 4 && t.Host? && |tr.ticks| >= 2
    requires Inv(L, tr.states[1]) && BindingOf(tr.states[1], s) == Bound(t)
    requires tr.cpus[1].pc == s.addr + 4 && Calls(tr.ticks[..1]) == [t.f]
    ensures Arrived(tr.cpus[2], tr.cpus[1].lr, t) && Calls(tr.ticks[..2]) == [t.f]
    ensures Inv(L, tr.states[2]) && BindingOf(tr.states[2], s) == Bound(t)
  {
    assert TickOk(L, tr, 1);
    ReturnStep(L, tr.states[1], tr.cpus[1], tr.ticks[1].after, tr.cpus[2], tr.ticks[1].call, s);
    TickKeeps(L, tr, 1, s, t);
    CallsStep(tr.ticks, 1);
  }

  /** The first instruction of a call: the stub is bound afterwards, whoever bound it. */
  lemma CallBegins(L: Layout, tr: Trace, s: Stub)
    requires Loaded(L) && LayoutOk(L) && TraceOk(L, tr) && s in L.stubs && |tr.ticks| >= 1
    requires Inv(L, tr.states[0]) && tr.cpus[0].pc == s.addr && !tr.cpus[0].thumb
    ensures var t := TargetOf(L, tr.states[0], s);
      && Inv(L, tr.ticks[0].after) && BindingOf(tr.ticks[0].after, s) == Bound(t)
      && tr.cpus[1].lr == tr.cpus[0].lr
      && Calls(tr.ticks[..1]) == CallsFor(t)
      && (t.Host? ==> if s.entry == 4 then Arrived(tr.cpus[1], tr.cpus[0].lr, t) else tr.cpus[1].pc == s.addr + 4)
      && (t.Guest? && BindingOf(tr.states[0], s) == Unbound ==> tr.cpus[1] == tr.cpus[0])
  {
    assert TickOk(L, tr, 0);
    var S, c, k := tr.states[0], tr.cpus[0], tr.ticks[0];
    CallsStep(tr.ticks, 0);
    if BindingOf(S, s) == Unbound {
      FirstTrap(L, S, c, k.after, tr.cpus[1], k.call, s);
      FirstCallBinds(L, S, s);
    } else if BindingOf(S, s).target.Host? {
      HostTrap(L, S, c, k.after, tr.cpus[1], k.call, s);
    } else {
      GuestStep(L, S, c, k.after, tr.cpus[1], k.call, s, 0);
    }
  }

  lemma GuestCallReaches(L: Layout, tr: Trace, s: Stub)
    requires Loaded(L) && LayoutOk(L) && TraceOk(L, tr) && s in L.stubs
    requires Inv(L, tr.states[0]) && tr.cpus[0].pc == s.addr && !tr.cpus[0].thumb
    requires TargetOf(L, tr.states[0], s).Guest? && |tr.ticks| >= CallLength(L, tr.states[0], s)
    ensures var t := TargetOf(L, tr.states[0], s);
      var n := CallLength(L, tr.states[0], s);
      && Arrived(tr.cpus[n], tr.cpus[0].lr, t) && Calls(tr.ticks[..n]) == []
      && Inv(L, tr.states[n]) && BindingOf(tr.states[n], s) == Bound(t)
  {
    hide Inv, TickOk, BindingOf, Resolve, Loaded;
    var t := TargetOf(L, tr.states[0], s);
    if BindingOf(tr.states[0], s) == Unbound {
      CallBegins(L, tr, s);
      TickKeeps(L, tr, 0, s, t);
      GuestRun(L, tr, 1, s, t, 0);
    } else {
      assert tr.ticks[..0] == [];
      GuestRun(L, tr, 0, s, t, 0);
    }
  }

  lemma HostCallReaches(L: Layout, tr: Trace, s: Stub)
    requires Loaded(L) && LayoutOk(L) && TraceOk(L, tr) && s in L.stubs
    requires Inv(L, tr.states[0]) && tr.cpus[0].pc == s.addr && !tr.cpus[0].thumb
    requires TargetOf(L, tr.states[0], s).Host? && |tr.ticks| >= CallLength(L, tr.states[0], s)
    ensures var t := TargetOf(L, tr.states[0], s);
      var n := CallLength(L, tr.states[0], s);
      && Arrived(tr.cpus[n], tr.cpus[0].lr, t) && Calls(tr.ticks[..n]) == [t.f]
      && Inv(L, tr.states[n]) && BindingOf(tr.states[n], s) == Bound(t)
  {
    hide Inv, TickOk, BindingOf, Resolve, Loaded;
    var t := TargetOf(L, tr.states[0], s);
    CallBegins(L, tr, s);
    TickKeeps(L, tr, 0, s, t);
    if s.entry != 4 { HostReturn(L, tr, s, t); }
  }

  /** Calling a rewritten stub reaches its target, whatever the rest of the system does between
      the instructions: a guest target with LR untouched and no host call, or exactly one call of
      the host function followed by a return to LR. Afterwards the stub is bound to that target. */
  lemma CallReachesTarget(L: Layout, tr: Trace, s: Stub)
    requires Loaded(L) && LayoutOk(L) && TraceOk(L, tr) && s in L.stubs
    requires Inv(L, tr.states[0]) && tr.cpus[0].pc == s.addr && !tr.cpus[0].thumb
    requires |tr.ticks| >= CallLength(L, tr.states[0], s)
    ensures var t := TargetOf(L, tr.states[0], s);
      var n := CallLength(L, tr.states[0], s);
      && Arrived(tr.cpus[n], tr.cpus[0].lr, t)
      && Calls(tr.ticks[..n]) == CallsFor(t)
      && Inv(L, tr.states[n]) && BindingOf(tr.states[n], s) == Bound(t)
  {
    if TargetOf(L, tr.states[0], s).Guest? { GuestCallReaches(L, tr, s); } else { HostCallReaches(L, tr, s); }
  }

  /** The first call of entry i of a stub section arrives where calls to the i-th symbol belong: in the
      trampoline handed out for it, else in the first binary that exports it, else, after one call of
      the host's function or of the stub that returns 0, back at the caller. */
  lemma FirstCallReachesPreferred(L: Layout, tr: Trace, s: Stub, b: nat, i: nat) returns (t: Target)
    requires Loaded(L) && LayoutOk(L) && TraceOk(L, tr) && s in L.stubs && IsEntry(L.bins, b, i, s)
    requires Inv(L, tr.states[0]) && BindingOf(tr.states[0], s) == Unbound && tr.cpus[0].pc == s.addr && !tr.cpus[0].thumb
    requires |tr.ticks| >= CallLength(L, tr.states[0], s)
    ensures IsPreferred(L, tr.states[0].nonLazy, L.bins[b].stubs.value.symbols[i], t)
    ensures var n := Length(s, t) + (if t.Guest? then 1 else 0);
      && n <= |tr.ticks| && Arrived(tr.cpus[n], tr.cpus[0].lr, t)
      && Calls(tr.ticks[..n]) == CallsFor(t) && BindingOf(tr.states[n], s) == Bound(t)
  {
    t := TargetOf(L, tr.states[0], s);
    StubOfEntry(L, s, b, i);
    ResolvePrefers(L, tr.states[0], s.symbol);
    hide Loaded, LayoutOk, TraceOk, Inv, IsPreferred, Resolve;
    CallReachesTarget(L, tr, s);
  }

  /** Two calls of the same stub, however far apart and whatever happens in between, reach the
      same target: the one the first of them bound. */
  lemma EveryCallReachesTheFirstTarget(L: Layout, first: Trace, between: seq<Event>, second: Trace, s: Stub)
    requires Loaded(L) && LayoutOk(L) && TraceOk(L, first) && TraceOk(L, second) && s in L.stubs
    requires Inv(L, first.states[0]) && first.cpus[0].pc == s.addr && !first.cpus[0].thumb
    requires |first.ticks| == CallLength(L, first.states[0], s)
    requires EventsOk(L, first.states[|first.ticks|], between)
    requires second.states[0] == ApplyAll(L, first.states[|first.ticks|], between)
    requires second.cpus[0].pc == s.addr && !second.cpus[0].thumb
    requires |second.ticks| >= Length(s, TargetOf(L, first.states[0], s))
    ensures var t := TargetOf(L, first.states[0], s);
      && Arrived(second.cpus[Length(s, t)], second.cpus[0].lr, t)
      && Calls(second.ticks[..Length(s, t)]) == CallsFor(t)
  {
    CallReachesTarget(L, first, s);
    EventsKeep(L, first.states[|first.ticks|], between);
    assert BindingOf(second.states[0], s) == Bound(TargetOf(L, first.states[0], s));
    CallReachesTarget(L, second, s);
  }

  lemma TrampolineTrap(L: Layout, S: Linker, c: Cpu, S': Linker, c': Cpu, call: Option<HostFunction>, n: string)
    requires LayoutOk(L) && Inv(L, S) && n in S.nonLazy && c.pc == S.nonLazy[n] && ThreadStep(L, S, c, S', c', call)
    ensures S' == S && call == Some(if n == "dyld_stub_binder" then StubBinder else Export(n))
    ensures c'.lr == c.lr && c'.pc == c.pc + 4 && !c'.thumb
  {
    assert TrampolineOk(S, n) && FreshAt(S, c.pc);
    var w := Read(S.mem, c.pc);
    assert Decode(Fetch(S, c.pc)) == Svc(LinkedSvc(12, HostIndex(w)));
  }

  lemma TrampolineReturn(L: Layout, S: Linker, c: Cpu, S': Linker, c': Cpu, call: Option<HostFunction>, n: string)
    requires LayoutOk(L) && Inv(L, S) && n in S.nonLazy && c.pc == S.nonLazy[n] + 4 && ThreadStep(L, S, c, S', c', call)
    ensures S' == S && call == None && c' == Branch(c, c.lr)
  {
    assert TrampolineOk(S, n) && FreshAt(S, c.pc);
    assert Decode(Fetch(S, c.pc)) == BxLr;
  }

  /** A trampoline calls its function once and returns to LR; so does a stub bound to it. */
  lemma CallTrampoline(L: Layout, tr: Trace, n: string)
    requires LayoutOk(L) && TraceOk(L, tr) && |tr.ticks| >= 2 && Inv(L, tr.states[0])
    requires n in tr.states[0].nonLazy && tr.cpus[0].pc == tr.states[0].nonLazy[n] && !tr.cpus[0].thumb
    ensures var f := if n == "dyld_stub_binder" then StubBinder else Export(n);
      && Arrived(tr.cpus[2], tr.cpus[0].lr, Host(f))
      && Calls(tr.ticks[..2]) == [f]
  {
    hide TrampolineOk, ThreadStep, BindingOf, StubsInv;
    assert TickOk(L, tr, 0) && TickOk(L, tr, 1);
    TrampolineTrap(L, tr.states[0], tr.cpus[0], tr.ticks[0].after, tr.cpus[1], tr.ticks[0].call, n);
    EventsKeep(L, tr.ticks[0].after, tr.ticks[0].others);
    TrampolineReturn(L, tr.states[1], tr.cpus[1], tr.ticks[1].after, tr.cpus[2], tr.ticks[1].call, n);
    CallsStep(tr.ticks, 0);
    CallsStep(tr.ticks, 1);
  }

  // ---- A call in progress can always go on ----

  /** Some step is possible. */
  ghost predicate Enabled(L: Layout, S: Linker, c: Cpu) { exists S', c', call :: ThreadStep(L, S, c, S', c', call) }

  lemma TrapEnabled(L: Layout, S: Linker, c: Cpu, imm: nat)
    requires |S.linked| < MAX_LINKED && !c.thumb && Decode(Fetch(S, c.pc)) == Svc(imm)
    requires imm != SVC_THREAD_EXIT && imm != SVC_RETURN_TO_HOST
    ensures Enabled(L, S, c)
  {
    hide Decode, Fetch, LazyLink;
    var r := SvcHandler(L, S, c.pc, imm);
    var c' := if r.1 == None then c else if imm >= SVC_LAZY_LINK_RET_FLAG then Branch(c, c.lr) else c.(pc := c.pc + 4);
    assert SvcStep(L, S, c, imm, r.0, c', r.1);
    assert ThreadStep(L, S, c, r.0, c', r.1);
  }

  lemma PlainEnabled(L: Layout, S: Linker, c: Cpu)
    requires !c.thumb && Decode(Fetch(S, c.pc)) != OtherCode && !Decode(Fetch(S, c.pc)).Svc?
    ensures Enabled(L, S, c)
  {
    assert ThreadStep(L, S, c, S, Execute(S, c, Decode(Fetch(S, c.pc))), None);
  }

  /** The first word of a rewritten stub. */
  lemma FirstWordEnabled(L: Layout, S: Linker, c: Cpu, s: Stub)
    requires LayoutOk(L) && Inv(L, S) && s in L.stubs && |S.linked| < MAX_LINKED && c.pc == s.addr && !c.thumb
    ensures Enabled(L, S, c)
  {
    FetchAtStub(L, S, s, s.addr);
    assert StubOk(L, S, s);
    var w := Read(S.mem, s.addr);
    if w == EncodeSvc(LazySvc(s.entry)) {
      TrapEnabled(L, S, c, LazySvc(s.entry));
    } else if IsSvc(w) {
      TrapEnabled(L, S, c, LinkedSvc(s.entry, HostIndex(w)));
    } else {
      RestoredInstruction(L, S, c, s, 0);
      PlainEnabled(L, S, c);
    }
  }

  lemma SecondWordEnabled(L: Layout, S: Linker, c: Cpu, s: Stub)
    requires LayoutOk(L) && Inv(L, S) && s in L.stubs && s.entry != 4 && c.pc == s.addr + 4 && !c.thumb
    requires BindingOf(S, s).Bound? && BindingOf(S, s).target.Host?
    ensures Enabled(L, S, c)
  {
    FetchAtStub(L, S, s, s.addr + 4);
    assert StubOk(L, S, s);
    PlainEnabled(L, S, c);
  }

  /** A restored stub under execution at tick i has not been left before its length is up. */
  lemma {:induction false} GuestGoesOn(L: Layout, tr: Trace, i: nat, s: Stub, t: Target, k: nat)
    requires LayoutOk(L) && TraceOk(L, tr) && s in L.stubs && t.Guest? && k < Length(s, t)
    requires i <= |tr.ticks| < i + Length(s, t) - k
    requires Inv(L, tr.states[i]) && BindingOf(tr.states[i], s) == Bound(t) && MidStub(L, tr.states[i], tr.cpus[i], s, k)
    ensures Enabled(L, tr.states[|tr.ticks|], tr.cpus[|tr.ticks|])
    decreases Length(s, t) - k
  {
    hide Enabled, ThreadStep, StubsInv, TrampolinesInv, TrampolinesApart, EventsOk, ApplyAll;
    if i == |tr.ticks| {
      RestoredInstruction(L, tr.states[i], tr.cpus[i], s, k);
      PlainEnabled(L, tr.states[i], tr.cpus[i]);
    } else {
      assert TickOk(L, tr, i);
      GuestStep(L, tr.states[i], tr.cpus[i], tr.ticks[i].after, tr.cpus[i + 1], tr.ticks[i].call, s, k);
      TickKeeps(L, tr, i, s, t);
      GuestGoesOn(L, tr, i + 1, s, t, k + 1);
    }
  }

  /** While a call has not arrived, its next instruction can be executed, whatever the rest of the
      system has done since it began. */
  lemma CallGoesOn(L: Layout, tr: Trace, s: Stub)
    requires Loaded(L) && LayoutOk(L) && TraceOk(L, tr) && s in L.stubs
    requires Inv(L, tr.states[0]) && |tr.states[0].linked| < MAX_LINKED && tr.cpus[0].pc == s.addr && !tr.cpus[0].thumb
    requires |tr.ticks| < CallLength(L, tr.states[0], s)
    ensures Enabled(L, tr.states[|tr.ticks|], tr.cpus[|tr.ticks|])
  {
    hide Enabled, Inv, Loaded, ThreadStep, BindingOf, Resolve, EventsOk, ApplyAll;
    if |tr.ticks| == 0 {
      FirstWordEnabled(L, tr.states[0], tr.cpus[0], s);
    } else {
      var t := TargetOf(L, tr.states[0], s);
      CallBegins(L, tr, s);
      TickKeeps(L, tr, 0, s, t);
      if t.Guest? {
        GuestGoesOn(L, tr, if BindingOf(tr.states[0], s) == Unbound then 1 else 0, s, t, 0);
      } else {
        assert TickOk(L, tr, 0);
        HostTrapLeavesArm(L, tr, s);
        SecondWordEnabled(L, tr.states[1], tr.cpus[1], s);
      }
    }
  }

  lemma HostTrapLeavesArm(L: Layout, tr: Trace, s: Stub)
    requires Loaded(L) && LayoutOk(L) && TraceOk(L, tr) && s in L.stubs && s.entry != 4 && |tr.ticks| >= 1
    requires Inv(L, tr.states[0]) && tr.cpus[0].pc == s.addr && TargetOf(L, tr.states[0], s).Host?
    ensures !tr.cpus[1].thumb
  {
    assert TickOk(L, tr, 0);
    var S, c, k := tr.states[0], tr.cpus[0], tr.ticks[0];
    if BindingOf(S, s) == Unbound {
      FirstTrap(L, S, c, k.after, tr.cpus[1], k.call, s);
    } else {
      HostTrap(L, S, c, k.after, tr.cpus[1], k.call, s);
    }
  }

  lemma Extended(L: Layout, tr: Trace, S': Linker, c': Cpu, call: Option<HostFunction>) returns (next: Trace)
    requires LayoutOk(L) && TraceOk(L, tr)
    requires ThreadStep(L, tr.states[|tr.ticks|], tr.cpus[|tr.ticks|], S', c', call)
    ensures TraceOk(L, next) && |next.ticks| == |tr.ticks| + 1
    ensures next.states[0] == tr.states[0] && next.cpus[0] == tr.cpus[0]
  {
    hide ThreadStep;
    next := Trace(tr.states + [S'], tr.cpus + [c'], tr.ticks + [Tick(call, S', [])]);
    forall i | 0 <= i < |next.ticks| ensures TickOk(L, next, i) {
      if i < |tr.ticks| { assert TickOk(L, tr, i); }
    }
  }

  /** A call that is begun can be completed: there is a trace as long as the call. */
  lemma CallTakesPlace(L: Layout, S: Linker, c: Cpu, s: Stub, n: nat) returns (tr: Trace)
    requires Loaded(L) && LayoutOk(L) && Inv(L, S) && s in L.stubs && |S.linked| < MAX_LINKED
    requires c.pc == s.addr && !c.thumb && n <= CallLength(L, S, s)
    ensures TraceOk(L, tr) && |tr.ticks| == n && tr.states[0] == S && tr.cpus[0] == c
  {
    hide Loaded, LayoutOk, Inv, ThreadStep, CallLength, TickOk;
    if n == 0 {
      tr := Trace([S], [c], []);
    } else {
      var before := CallTakesPlace(L, S, c, s, n - 1);
      CallGoesOn(L, before, s);
      var S', c', call :| ThreadStep(L, before.states[n - 1], before.cpus[n - 1], S', c', call);
      tr := Extended(L, before, S', c', call);
    }
  }

  // ---- Traps whose number nothing is linked to ----

  predicate LinkedNumber(S: Linker, imm: nat) {
    0 <= imm % SVC_LAZY_LINK_RET_FLAG - SVC_LINKED_FUNCTIONS_BASE < |S.linked|
  }

  predicate FunctionNumber(imm: nat) { SVC_LINKED_FUNCTIONS_BASE <= imm < 0x1000000 && imm != SVC_LAZY_LINK_RET_FLAG }

  /** A trap with the number of a function does nothing and is executed again exactly when its
      number, without the flag, is not that of a linked function. */
  lemma UnknownTrap(L: Layout, S: Linker, c: Cpu, imm: nat, S': Linker, c': Cpu, call: Option<HostFunction>)
    requires FunctionNumber(imm) && SvcStep(L, S, c, imm, S', c', call)
    ensures (S' == S && c' == c && call == None) <==> !LinkedNumber(S, imm)
  {}

  /** Left to itself, a thread stays at such a trap for ever, calling nothing, exactly when its
      number, without the flag, is not that of a linked function. */
  lemma {:induction false} UnknownTrapRepeats(L: Layout, tr: Trace, imm: nat, n: nat)
    requires LayoutOk(L) && TraceOk(L, tr) && FunctionNumber(imm) && 0 < n <= |tr.ticks|
    requires Decode(Fetch(tr.states[0], tr.cpus[0].pc)) == Svc(imm) && forall i | 0 <= i < n :: tr.ticks[i].others == []
    ensures (tr.states[n] == tr.states[0] && tr.cpus[n] == tr.cpus[0] && Calls(tr.ticks[..n]) == [])
         <==> !LinkedNumber(tr.states[0], imm)
  {
    hide Decode, Fetch;
    if LinkedNumber(tr.states[0], imm) {
      assert TickOk(L, tr, 0);
      UnknownTrap(L, tr.states[0], tr.cpus[0], imm, tr.ticks[0].after, tr.cpus[1], tr.ticks[0].call);
      CallsStep(tr.ticks, 0);
      CallsGrow(tr.ticks, 1, n);
    } else {
      if n > 1 { UnknownTrapRepeats(L, tr, imm, n - 1); }
      assert TickOk(L, tr, n - 1);
      UnknownTrap(L, tr.states[n - 1], tr.cpus[n - 1], imm, tr.ticks[n - 1].after, tr.cpus[n], tr.ticks[n - 1].call);
      CallsStep(tr.ticks, n - 1);
    }
  }

  lemma {:induction false} CallsGrow(ticks: seq<Tick>, i: nat, n: nat)
    requires i <= n <= |ticks|
    ensures |Calls(ticks[..i])| <= |Calls(ticks[..n])|
    decreases n
  {
    if i < n {
      CallsGrow(ticks, i, n - 1);
      CallsStep(ticks, n - 1);
    }
  }

  /** No such trap is ever met in a rewritten stub or in a trampoline. */
  lemma OwnTrapsAreLinked(L: Layout, S: Linker, a: int, imm: nat)
    requires LayoutOk(L) && Inv(L, S) && Decode(Fetch(S, a)) == Svc(imm) && FunctionNumber(imm)
    requires (exists s :: s in L.stubs && a == s.addr) || (exists n :: n in S.nonLazy && a == S.nonLazy[n])
    ensures LinkedNumber(S, imm)
  {
    if n :| n in S.nonLazy && a == S.nonLazy[n] {
      assert TrampolineOk(S, n) && FreshAt(S, a);
    } else {
      var s :| s in L.stubs && a == s.addr;
      FetchAtStub(L, S, s, a);
      assert StubOk(L, S, s);
    }
  }

  /** With an empty table, trap number 3 at 0x1000, called from 0x2000: no return to the caller. */
  lemma UnknownTrapStays(L: Layout, S': Linker, c': Cpu, call: Option<HostFunction>)
    requires ThreadStep(L, Linker(map[0x1000 := EncodeSvc(3)], map[], [], map[]), Cpu(0, 0x2000, 0x1000, false), S', c', call)
    ensures c'.pc == 0x1000 && call == None
  {
    var S := Linker(map[0x1000 := EncodeSvc(3)], map[], [], map[]);
    assert Decode(Fetch(S, 0x1000)) == Svc(3);
  }
}
