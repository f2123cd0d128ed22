/** Rewriting the stubs of the loaded binaries into lazy-linking traps, before the guest runs. */
module StubSetup {
  import opened LazyLinker

  function ExpectedWords(entry: nat): seq<Word> {
    if entry == 12 then [LDR_R12_LITERAL, LDR_PC_R12]
    else if entry == 16 then [LDR_R12_LITERAL + 4, ADD_R12_PC_R12, LDR_PC_R12]
    else []
  }

  /** Stubs whose code is not the expected one are left alone; 4-byte stubs are never checked. */
  predicate Matches(mem: map<int, Word>, addr: int, entry: nat) {
    forall j | 0 <= j < |ExpectedWords(entry)| :: Read(mem, addr + 4 * j) == ExpectedWords(entry)[j]
  }

  function SetupStub(mem: map<int, Word>, addr: int, entry: nat): map<int, Word> {
    if !Matches(mem, addr, entry) then mem
    else if entry == 4 then mem[addr := EncodeSvc(SVC_LAZY_LINK_RET_FLAG)]
    else if entry == 12 then mem[addr := EncodeSvc(SVC_LAZY_LINK)][addr + 4 := BX_LR]
    else mem[addr := EncodeSvc(SVC_LAZY_LINK)][addr + 4 := BX_LR][addr + 8 := TRAP]
  }

  /** Where the j-th stub of a section starts. */
  function Start(sec: StubSection, j: nat): int { sec.addr + j * sec.entry }

  lemma StartStep(sec: StubSection, j: nat)
    ensures Start(sec, j + 1) == Start(sec, j) + sec.entry
  {}

  lemma StartMonotone(sec: StubSection, i: nat, j: nat)
    requires i <= j
    ensures sec.addr <= Start(sec, i) <= Start(sec, j)
  {
    MulMonotone(sec.entry, 0, i);
    MulMonotone(sec.entry, i, j);
  }

  function SetupSection(mem: map<int, Word>, sec: StubSection, n: nat): map<int, Word> {
    if n == 0 then mem
    else SetupStub(SetupSection(mem, sec, n - 1), Start(sec, n - 1), sec.entry)
  }

  function SetupBinary(mem: map<int, Word>, bin: Binary): map<int, Word> {
    if bin.stubs.Some? && bin.stubs.value.entry in {4, 12, 16}
    then SetupSection(mem, bin.stubs.value, |bin.stubs.value.symbols|) else mem
  }

  function SetupBinaries(mem: map<int, Word>, bins: seq<Binary>): map<int, Word> {
    if bins == [] then mem else SetupBinary(SetupBinaries(mem, bins[..|bins| - 1]), bins[|bins| - 1])
  }

  lemma MatchesLocal(mem: map<int, Word>, mem': map<int, Word>, addr: int, entry: nat)
    requires entry in {4, 12, 16}
    requires forall b | addr <= b < addr + entry :: Read(mem', b) == Read(mem, b)
    ensures Matches(mem', addr, entry) == Matches(mem, addr, entry)
  {
    forall j | 0 <= j < |ExpectedWords(entry)| ensures Read(mem', addr + 4 * j) == Read(mem, addr + 4 * j) {
      assert addr <= addr + 4 * j < addr + entry;
    }
  }

  lemma SetupStubLocal(mem: map<int, Word>, mem': map<int, Word>, addr: int, entry: nat, a: int)
    requires entry in {4, 12, 16}
    requires forall b | addr <= b < addr + entry :: Read(mem', b) == Read(mem, b)
    ensures addr <= a < addr + entry ==> Read(SetupStub(mem', addr, entry), a) == Read(SetupStub(mem, addr, entry), a)
    ensures !(addr <= a < addr + entry) ==> Read(SetupStub(mem', addr, entry), a) == Read(mem', a)
  {
    MatchesLocal(mem, mem', addr, entry);
    if addr <= a < addr + entry { assert Read(mem', a) == Read(mem, a); }
  }

  lemma {:induction false} SetupSectionEffect(mem: map<int, Word>, sec: StubSection, n: nat, j: nat, a: int)
    requires sec.entry in {4, 12, 16}
    ensures j < n && Start(sec, j) <= a < Start(sec, j) + sec.entry ==>
      Read(SetupSection(mem, sec, n), a) == Read(SetupStub(mem, Start(sec, j), sec.entry), a)
    ensures !(sec.addr <= a < Start(sec, n)) ==> Read(SetupSection(mem, sec, n), a) == Read(mem, a)
  {
    hide SetupStub, Start;
    if n > 0 {
      var before, addr := SetupSection(mem, sec, n - 1), Start(sec, n - 1);
      StartStep(sec, n - 1);
      StartMonotone(sec, 0, n - 1);
      SetupSectionEffect(mem, sec, n - 1, j, a);
      forall b | addr <= b < addr + sec.entry ensures Read(before, b) == Read(mem, b) {
        SetupSectionEffect(mem, sec, n - 1, 0, b);
      }
      SetupStubLocal(mem, before, addr, sec.entry, a);
      if j < n - 1 {
        StartStep(sec, j);
        StartMonotone(sec, j + 1, n - 1);
      }
    }
  }

  /** Every address of a section lies in one of its stubs. */
  lemma StubIndex(sec: StubSection, a: int) returns (j: nat)
    requires sec.entry > 0 && sec.addr <= a < sec.addr + sec.Size()
    ensures j < |sec.symbols| && Start(sec, j) <= a < Start(sec, j) + sec.entry
    ensures (a - sec.addr) % sec.entry == 0 ==> Start(sec, j) == a
  {
    IndexInSection(sec, a);
    j := (a - sec.addr) / sec.entry;
    assert a - sec.addr == j * sec.entry + (a - sec.addr) % sec.entry;
  }

  predicate Supported(bin: Binary) { bin.stubs.Some? && bin.stubs.value.entry in {4, 12, 16} }

  predicate InSection(bin: Binary, a: int) {
    bin.stubs.Some? && bin.stubs.value.addr <= a < bin.stubs.value.addr + bin.stubs.value.Size()
  }

  lemma {:induction false} SetupBinariesEffect(mem: map<int, Word>, bins: seq<Binary>, i: nat, a: int)
    requires forall i, j | 0 <= i < j < |bins| :: SectionsDisjoint(bins[i], bins[j])
    requires i < |bins| && InSection(bins[i], a)
    ensures Read(SetupBinaries(mem, bins), a) == Read(SetupBinary(mem, bins[i]), a)
    decreases |bins|
  {
    var last := |bins| - 1;
    var before := SetupBinaries(mem, bins[..last]);
    if i < last {
      SetupBinariesEffect(mem, bins[..last], i, a);
      assert SectionsDisjoint(bins[i], bins[last]);
      SetupBinaryOutside(before, bins[last], a);
    } else {
      SetupUntouched(mem, bins[..last], bins[last]);
      SetupBinaryInside(mem, before, bins[last], a);
    }
  }

  lemma SetupBinaryOutside(mem: map<int, Word>, bin: Binary, a: int)
    requires !InSection(bin, a)
    ensures Read(SetupBinary(mem, bin), a) == Read(mem, a)
  {
    if Supported(bin) { SetupSectionEffect(mem, bin.stubs.value, |bin.stubs.value.symbols|, 0, a); }
  }

  lemma {:induction false} SetupUntouched(mem: map<int, Word>, bins: seq<Binary>, bin: Binary)
    requires forall i | 0 <= i < |bins| :: SectionsDisjoint(bins[i], bin)
    ensures forall a | InSection(bin, a) :: Read(SetupBinaries(mem, bins), a) == Read(mem, a)
  {
    if bins != [] {
      var last := |bins| - 1;
      SetupUntouched(mem, bins[..last], bin);
      forall a | InSection(bin, a) ensures Read(SetupBinaries(mem, bins), a) == Read(mem, a) {
        SetupBinaryOutside(SetupBinaries(mem, bins[..last]), bins[last], a);
      }
    }
  }

  lemma SetupBinaryInside(mem: map<int, Word>, mem': map<int, Word>, bin: Binary, a: int)
    requires InSection(bin, a) && forall b | InSection(bin, b) :: Read(mem', b) == Read(mem, b)
    ensures Read(SetupBinary(mem', bin), a) == Read(SetupBinary(mem, bin), a)
  {
    hide SetupStub, SetupSection, Read;
    if Supported(bin) {
      var sec := bin.stubs.value;
      var j := StubIndex(sec, a);
      StartStep(sec, j);
      StartMonotone(sec, 0, j);
      StartMonotone(sec, j + 1, |sec.symbols|);
      SetupSectionEffect(mem, sec, |sec.symbols|, j, a);
      SetupSectionEffect(mem', sec, |sec.symbols|, j, a);
      forall b | Start(sec, j) <= b < Start(sec, j) + sec.entry ensures Read(mem', b) == Read(mem, b) {
        assert InSection(bin, b);
      }
      SetupStubLocal(mem, mem', Start(sec, j), sec.entry, a);
    }
  }

  /** The words of a stub after set-up depend on that stub's own words only. */
  lemma SetupAtStub(mem: map<int, Word>, bins: seq<Binary>, s: Stub, a: int)
    requires forall i, j | 0 <= i < j < |bins| :: SectionsDisjoint(bins[i], bins[j])
    requires FindStub(bins, s.addr) == Some(s) && s.entry in {4, 12, 16} && InStub(s, a)
    ensures Read(SetupBinaries(mem, bins), a) == Read(SetupStub(mem, s.addr, s.entry), a)
  {
    var i := FoundInSection(bins, s.addr);
    StubInSection(bins[i], s);
    hide FindStub, StubAt, SetupBinaries, SetupStub, SetupSection, SectionsDisjoint, Read, Start;
    SetupBinariesEffect(mem, bins, i, a);
    SetupAtEntry(mem, bins[i], s, a);
  }

  lemma SetupAtEntry(mem: map<int, Word>, bin: Binary, s: Stub, a: int)
    requires bin.stubs.Some? && bin.stubs.value.entry == s.entry && s.entry in {4, 12, 16} && InStub(s, a)
    requires var sec := bin.stubs.value; sec.addr <= s.addr < sec.addr + sec.Size() && (s.addr - sec.addr) % s.entry == 0
    ensures Read(SetupBinary(mem, bin), a) == Read(SetupStub(mem, s.addr, s.entry), a)
  {
    hide SetupStub, SetupSection, Read, Start;
    var sec := bin.stubs.value;
    var j := StubIndex(sec, s.addr);
    SetupSectionEffect(mem, sec, |sec.symbols|, j, a);
  }

  /** Restoring a stub undoes its set-up, word for word; a 4-byte stub gets the load of its pointer. */
  lemma RestoringUndoesSetup(mem: map<int, Word>, s: Stub, a: int)
    requires s.entry in {4, 12, 16} && Matches(mem, s.addr, s.entry) && InStub(s, a) && (a - s.addr) % 4 == 0
    ensures var restored := RestoredWords(SetupStub(mem, s.addr, s.entry), s);
      if s.entry == 4 then s.picOffset < 4096 ==> Decode(Read(restored, a)) == LdrPcLiteral(s.picOffset)
      else Read(restored, a) == Read(mem, a)
  {
    var e := ExpectedWords(s.entry);
    if s.entry == 12 {
      assert Read(mem, s.addr + 4 * 0) == e[0] && Read(mem, s.addr + 4 * 1) == e[1];
    } else if s.entry == 16 {
      assert Read(mem, s.addr + 4 * 0) == e[0] && Read(mem, s.addr + 4 * 1) == e[1] && Read(mem, s.addr + 4 * 2) == e[2];
    }
  }

  /** After set-up, with nothing translated yet, every stub with the expected code is an unbound
      trap and its pointer literal is intact. */
  lemma SetupEstablishes(L: Layout, mem: map<int, Word>)
    requires Loaded(L) && LayoutOk(L)
    requires forall s | s in L.stubs :: Matches(mem, s.addr, s.entry) && L.slots[s.addr] == Slot(mem, s)
    ensures var S := Linker(SetupBinaries(mem, L.bins), map[], [], map[]);
      Inv(L, S) && forall s | s in L.stubs :: BindingOf(S, s) == Unbound
  {
    var S := Linker(SetupBinaries(mem, L.bins), map[], [], map[]);
    forall s | s in L.stubs ensures StubOk(L, S, s) && BindingOf(S, s) == Unbound {
      forall a | InStub(s, a) ensures Read(S.mem, a) == Read(SetupStub(mem, s.addr, s.entry), a) {
        SetupAtStub(mem, L.bins, s, a);
      }
      assert InStub(s, s.addr);
      if s.entry != 4 { assert InStub(s, s.addr + 4) && InStub(s, s.addr + 8); }
      if s.entry == 16 { assert InStub(s, s.addr + 12); }
    }
  }
}
