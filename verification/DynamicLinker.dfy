/** The linker as the emulator holds it: one object whose memory, code cache, SVC table and
    trampoline table are updated in place by traps. Every method is proved against the functions
    of LazyLinker and StubSetup, so the theorems there are about these methods. */
module DynamicLinker {
  import opened LazyLinker
  import opened StubSetup

  class Environment {
    const layout: Layout
    var mem: map<int, Word>
    var icache: map<int, Word>
    var linked: seq<HostFunction>
    var nonLazy: map<string, int>
    var r12: Word
    var lr: Word
    var pc: int
    var thumb: bool

    function State(): Linker
      reads this
    {
      Linker(mem, icache, linked, nonLazy)
    }

    function Registers(): Cpu
      reads this
    {
      Cpu(r12, lr, pc, thumb)
    }

    ghost predicate Valid()
      reads this
    {
      Loaded(layout) && LayoutOk(layout) && Inv(layout, State())
    }

    /** The linker of freshly loaded binaries, before any stub is rewritten. */
    constructor (layout: Layout, mem: map<int, Word>)
      ensures this.layout == layout && State() == Linker(mem, map[], [], map[])
    {
      this.layout, this.mem, icache, linked, nonLazy := layout, mem, map[], [], map[];
      r12, lr, pc, thumb := 0, 0, 0, false;
    }

    method HasExpectedCode(ptr: int, entry: nat) returns (ok: bool)
      ensures ok == Matches(mem, ptr, entry)
    {
      var expected := ExpectedWords(entry);
      for j := 0 to |expected|
        invariant forall k | 0 <= k < j :: Read(mem, ptr + 4 * k) == expected[k]
      {
        if Read(mem, ptr + 4 * j) != expected[j] { return false; }
      }
      return true;
    }

    method SetupLazyLinking(bin: Binary)
      modifies this`mem
      ensures mem == SetupBinary(old(mem), bin)
    {
      if bin.stubs.None? { return; }
      var sec := bin.stubs.value;
      if sec.entry !in {4, 12, 16} { return; }
      for i := 0 to |sec.symbols|
        invariant mem == SetupSection(old(mem), sec, i)
      {
        var ptr := Start(sec, i);
        var matches := HasExpectedCode(ptr, sec.entry);
        if !matches { continue; }
        if sec.entry == 4 {
          mem := mem[ptr := EncodeSvc(SVC_LAZY_LINK_RET_FLAG)];
        } else {
          mem := mem[ptr := EncodeSvc(SVC_LAZY_LINK)];
          mem := mem[ptr + 4 := BX_LR];
        }
        if sec.entry == 16 { mem := mem[ptr + 8 := TRAP]; }
      }
    }

    /** Set-up of all binaries leaves a valid linker in which no stub is bound yet. */
    method DoInitialLinking()
      requires Loaded(layout) && LayoutOk(layout) && icache == map[] && linked == [] && nonLazy == map[]
      requires forall s | s in layout.stubs :: Matches(mem, s.addr, s.entry) && layout.slots[s.addr] == Slot(mem, s)
      modifies this`mem
      ensures mem == SetupBinaries(old(mem), layout.bins)
      ensures Valid() && forall s | s in layout.stubs :: BindingOf(State(), s) == Unbound
    {
      var k := 0;
      while k < |layout.bins|
        invariant k <= |layout.bins| && mem == SetupBinaries(old(mem), layout.bins[..k])
      {
        SetupLazyLinking(layout.bins[k]);
        assert layout.bins[..k + 1][..k] == layout.bins[..k];
        k := k + 1;
      }
      assert layout.bins[..k] == layout.bins;
      SetupEstablishes(layout, old(mem));
    }

    method InvalidateCacheRange(base: int, size: nat)
      modifies this`icache
      ensures icache == Forget(old(icache), base, size)
    {
      icache := Forget(icache, base, size);
    }

    method RestoreOriginalCode(s: Stub)
      requires s.entry in {4, 12, 16} && (s.entry == 4 ==> 0 <= s.picOffset < 4096)
      modifies this`mem
      ensures mem == RestoredWords(old(mem), s)
    {
      if s.entry == 4 {
        mem := mem[s.addr := LDR_PC_LITERAL + s.picOffset];
      } else if s.entry == 12 {
        mem := mem[s.addr := LDR_R12_LITERAL];
        mem := mem[s.addr + 4 := LDR_PC_R12];
      } else {
        mem := mem[s.addr := LDR_R12_LITERAL + 4];
        mem := mem[s.addr + 4 := ADD_R12_PC_R12];
        mem := mem[s.addr + 8 := LDR_PC_R12];
      }
    }

    /** Reads the pointer's place off the restored code: the offset in a 4-byte stub's own load,
        or the literal behind a longer stub. */
    method LazyPointerOf(s: Stub) returns (slot: Word)
      requires s.entry in {4, 12, 16}
      requires s.entry == 4 ==> 0 <= s.picOffset < 4096 && Read(mem, s.addr) == LDR_PC_LITERAL + s.picOffset
      ensures slot == Slot(mem, s)
    {
      if s.entry == 12 {
        slot := Read(mem, s.addr + 8);
      } else if s.entry == 4 {
        var offset := Read(mem, s.addr) % 0x1000;
        assert offset == s.picOffset;
        slot := Wrap(s.addr + offset + 8);
      } else {
        slot := Wrap(s.addr + Read(mem, s.addr + 12) + 12);
      }
    }

    /** Puts the original jump back and points its pointer at the linked function. */
    method LinkByRestoringStub(s: Stub, target: Word)
      requires s.entry in {4, 12, 16} && (s.entry == 4 ==> 0 <= s.picOffset < 4096)
      modifies this`mem, this`icache
      ensures State() == RestoreStub(old(State()), s, target)
    {
      RestoreOriginalCode(s);
      InvalidateCacheRange(s.addr, InstructionBytes(s.entry));
      var slot := LazyPointerOf(s);
      mem := mem[slot := target];
    }

    method LookupGuestExport(symbol: string) returns (addr: Option<Word>)
      ensures addr == FirstExport(layout.bins, symbol)
    {
      var k := 0;
      while k < |layout.bins|
        invariant k <= |layout.bins| && FirstExport(layout.bins, symbol) == FirstExport(layout.bins[k..], symbol)
      {
        if symbol in layout.bins[k].exports { return Some(layout.bins[k].exports[symbol]); }
        k := k + 1;
      }
      return None;
    }

    /** Gives a stub its own SVC number and traps into the function from now on. */
    method BindStubToHost(s: Stub, f: HostFunction)
      requires |linked| < MAX_LINKED
      requires s.entry != 4 ==> Read(mem, s.addr + 4) == BX_LR
      modifies this`mem, this`icache, this`linked
      ensures State() == BindHost(old(State()), s, f)
    {
      var svc := |linked| + SVC_LINKED_FUNCTIONS_BASE;
      if s.entry == 4 {
        assert svc < SVC_LAZY_LINK_RET_FLAG;
        svc := svc + SVC_LAZY_LINK_RET_FLAG;
      }
      linked := linked + [f];
      mem := mem[s.addr := EncodeSvc(svc)];
      if s.entry != 4 { assert Read(mem, s.addr + 4) == BX_LR; }
      InvalidateCacheRange(s.addr, 4);
    }

    method DoLazyLink(s: Stub) returns (f: Option<HostFunction>)
      requires Valid() && |linked| < MAX_LINKED && s in layout.stubs && BindingOf(State(), s) == Unbound
      modifies this`mem, this`icache, this`linked
      ensures (State(), f) == LazyLink(layout, old(State()), s)
      ensures Valid() && Extends(layout, old(State()), State())
      ensures BindingOf(State(), s) == Bound(Resolve(layout, old(nonLazy), s.symbol))
      ensures BoundAsPreferred(layout, old(nonLazy), s, BindingOf(State(), s))
      ensures forall t | t in layout.stubs && t != s :: BindingOf(State(), t) == BindingOf(old(State()), t)
    {
      hide BoundAsPreferred;
      FirstCallBinds(layout, State(), s);
      FirstCallPrefers(layout, State(), s);
      assert StubOk(layout, State(), s);
      if s.symbol in nonLazy {
        LinkByRestoringStub(s, Wrap(nonLazy[s.symbol]));
        return None;
      }
      var addr := LookupGuestExport(s.symbol);
      if addr.Some? {
        LinkByRestoringStub(s, addr.value);
        return None;
      }
      var found := if s.symbol in layout.hostExports then Export(s.symbol) else Unimplemented(s.symbol);
      BindStubToHost(s, found);
      return Some(found);
    }

    method GetSvcHandler(svcPc: int, svc: nat) returns (f: Option<HostFunction>)
      requires Valid() && |linked| < MAX_LINKED && svc != SVC_THREAD_EXIT && svc != SVC_RETURN_TO_HOST
      requires svc in {SVC_LAZY_LINK, SVC_LAZY_LINK_RET_FLAG} ==>
        var s := FindStub(layout.bins, svcPc);
        s.Some? && s.value in layout.stubs && BindingOf(State(), s.value) == Unbound
      modifies this`mem, this`icache, this`linked
      ensures (State(), f) == SvcHandler(layout, old(State()), svcPc, svc)
      ensures Valid() && Extends(layout, old(State()), State())
    {
      if svc == SVC_LAZY_LINK || svc == SVC_LAZY_LINK_RET_FLAG {
        f := DoLazyLink(FindStub(layout.bins, svcPc).value);
        return;
      }
      var index := svc % SVC_LAZY_LINK_RET_FLAG - SVC_LINKED_FUNCTIONS_BASE;
      return if 0 <= index < |linked| then Some(linked[index]) else None;
    }

    /** Reacts to a trap with PC already past it. Whatever the host function leaves in r12 comes
        in as `r12After`. */
    method HandleSvc(svc: nat, r12After: Word) returns (call: Option<HostFunction>)
      requires Valid() && !thumb && |linked| < MAX_LINKED && svc != SVC_THREAD_EXIT && svc != SVC_RETURN_TO_HOST
      requires svc in {SVC_LAZY_LINK, SVC_LAZY_LINK_RET_FLAG} ==>
        var s := FindStub(layout.bins, pc - 4);
        s.Some? && s.value in layout.stubs && BindingOf(State(), s.value) == Unbound
      modifies this
      ensures SvcStep(layout, old(State()), old(Registers()).(pc := old(pc) - 4), svc, State(), Registers(), call)
      ensures Valid() && Extends(layout, old(State()), State())
    {
      var svcPc := pc - 4;
      call := GetSvcHandler(svcPc, svc);
      if call.Some? {
        r12 := r12After;
        if svc >= SVC_LAZY_LINK_RET_FLAG {
          pc, thumb := lr - lr % 2, lr % 2 == 1;
        }
      } else {
        pc := svcPc;
      }
    }

    method CreateGuestFunction(name: string, f: HostFunction, at: int)
      requires |linked| < MAX_LINKED
      modifies this`mem, this`linked
      ensures mem == old(mem)[at := EncodeSvc(LinkedSvc(12, |old(linked)|))][at + 4 := BX_LR]
      ensures linked == old(linked) + [f]
    {
      var svc := |linked| + SVC_LINKED_FUNCTIONS_BASE;
      linked := linked + [f];
      mem := mem[at := EncodeSvc(svc)];
      mem := mem[at + 4 := BX_LR];
    }

    /** "Get proc address": a trampoline per exported name, made on first request. */
    method CreateProcAddress(symbol: string, at: int) returns (addr: Option<int>)
      requires Valid() && |linked| < MAX_LINKED && AllocationOk(layout, State(), at)
      modifies this`mem, this`icache, this`linked, this`nonLazy
      ensures (State(), addr) == ProcAddress(layout, old(State()), symbol, at)
      ensures Valid() && Extends(layout, old(State()), State())
      ensures addr.None? <==> symbol !in {"dyld_stub_binder", "_dyld_stub_binder"} && symbol !in layout.hostExports
      ensures addr.Some? ==>
        var name := if symbol == "_dyld_stub_binder" then "dyld_stub_binder" else symbol;
        name in nonLazy && addr == Some(nonLazy[name])
    {
      ProcAddressFinds(layout, State(), symbol, at);
      hide Inv, Extends, ProcAddress, LayoutOk, Loaded, AllocationOk;
      ProcAddressKeeps(layout, State(), symbol, at);
      addr := FindProcAddress(symbol, at);
    }

    method FindProcAddress(symbol: string, at: int) returns (addr: Option<int>)
      requires |linked| < MAX_LINKED
      modifies this`mem, this`icache, this`linked, this`nonLazy
      ensures (State(), addr) == ProcAddress(layout, old(State()), symbol, at)
    {
      var entry := ProcEntry(layout, symbol);
      if entry.None? { return None; }
      var (name, f) := entry.value;
      if name in nonLazy {
        addr := Some(nonLazy[name]);
      } else {
        CreateGuestFunction(name, f, at);
        nonLazy := nonLazy[name := at];
        addr := Some(at);
      }
      InvalidateCacheRange(addr.value - addr.value % 2, 8);
    }
  }
}
