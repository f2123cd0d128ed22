/** Many C++ strings in one memory: they do not disturb each other, and over any run the heap
    holds exactly one buffer for each string in the long form, and none for the others. */
module CxxStrings {
  import opened GuestMemory64
  import opened CxxString

  /** Two objects and their buffers do not overlap. */
  ghost predicate Separate(m: Memory, o: int, u: int) {
    && (o + OBJECT_SIZE <= u || u + OBJECT_SIZE <= o)
    && (Buffer(m, o).Some? ==> Buffer(m, o) != Buffer(m, u))
    && (forall k | InObject(o, k) :: !InBuffer(m, u, k))
    && (forall k | InObject(u, k) :: !InBuffer(m, o, k))
  }

  lemma BuffersApart(m: Memory, o: int, s: seq<Byte>, u: int, t: seq<Byte>, k: int)
    requires Live(m, o, s) && Live(m, u, t) && Separate(m, o, u) && InBuffer(m, u, k)
    ensures !InBuffer(m, o, k) && !InObject(o, k) && k in m.bytes
  {
    assert AllocationOk(m, Buffer(m, u).value);
  }

  /** An operation on one string changes no other. */
  lemma OthersKept(m: Memory, m': Memory, o: int, s: seq<Byte>, s': seq<Byte>, u: int, t: seq<Byte>)
    requires Live(m, o, s) && Live(m, u, t) && Separate(m, o, u) && Effect(m, m', o, s', true)
    ensures Live(m', u, t) && Buffer(m', u) == Buffer(m, u) && Separate(m', o, u)
  {
    hide StringOk;
    SameAfter(m, m', o, s, s', u, t);
    SameStringIsOk(m, m', u, t);
    StillSeparate(m, m', o, s, s', u, t);
  }

  lemma SameAfter(m: Memory, m': Memory, o: int, s: seq<Byte>, s': seq<Byte>, u: int, t: seq<Byte>)
    requires Live(m, o, s) && Live(m, u, t) && Separate(m, o, u) && Effect(m, m', o, s', true)
    ensures SameString(m, m', u)
  {
    forall k | InObject(u, k) ensures k in m.bytes && k in m'.bytes && m'.bytes[k] == m.bytes[k] {}
    forall k | InBuffer(m, u, k) ensures k in m.bytes && k in m'.bytes && m'.bytes[k] == m.bytes[k] {
      BuffersApart(m, o, s, u, t, k);
    }
  }

  lemma StillSeparate(m: Memory, m': Memory, o: int, s: seq<Byte>, s': seq<Byte>, u: int, t: seq<Byte>)
    requires Live(m, o, s) && Live(m, u, t) && Separate(m, o, u) && Effect(m, m', o, s', true)
    requires Buffer(m', u) == Buffer(m, u) && SameString(m, m', u)
    ensures Separate(m', o, u)
  {
    if Buffer(m, u).Some? {
      var q := Buffer(m, u).value;
      assert AllocationOk(m, q) && InBuffer(m, u, q);
      BuffersApart(m, o, s, u, t, q);
      assert !InBuffer(m', o, q);
    }
    forall k | InObject(u, k) ensures !InBuffer(m', o, k) { assert k in m.bytes && !InBuffer(m, o, k); }
    forall k | InObject(o, k) ensures !InBuffer(m', u, k) { assert !InBuffer(m, u, k); }
  }

  ghost predicate Owned(m: Memory, live: map<int, seq<Byte>>, a: int) { exists o :: o in live && Buffer(m, o) == Some(a) }

  /** The allocations are those of others and the buffers of the live strings. */
  ghost predicate Accounted(m: Memory, live: map<int, seq<Byte>>, others: set<int>) {
    && (forall a :: a in m.allocs <==> a in others || Owned(m, live, a))
    && (forall o | o in live && Buffer(m, o).Some? :: Buffer(m, o).value !in others)
  }

  ghost predicate World(m: Memory, live: map<int, seq<Byte>>, others: set<int>) {
    && HeapOk(m) && Accounted(m, live, others)
    && (forall o | o in live :: StringOk(m, o, live[o]))
    && (forall o, u | o in live && u in live && o != u :: Separate(m, o, u))
  }

  /** A successful operation on one of the strings. */
  lemma EffectKeepsWorld(m: Memory, live: map<int, seq<Byte>>, others: set<int>, o: int, m': Memory, s: seq<Byte>)
    requires World(m, live, others) && o in live && Effect(m, m', o, s, true)
    ensures World(m', live[o := s], others)
  {
    hide StringOk, Frame;
    var live' := live[o := s];
    forall u | u in live && u != o ensures StringOk(m', u, live[u]) && Buffer(m', u) == Buffer(m, u) && Separate(m', o, u) {
      OthersKept(m, m', o, live[o], s, u, live[u]);
    }
    forall u, v | u in live' && v in live' && u != v ensures Separate(m', u, v) {
      if u == o {
        assert Separate(m', o, v);
      } else if v == o {
        assert Separate(m', o, u);
        SeparateSymmetric(m', o, u);
      } else {
        SeparateKept(m, m', o, live[o], s, u, live[u], v, live[v]);
      }
    }
    StillAccounted(m, live, others, o, m', s);
  }

  lemma SeparateSymmetric(m: Memory, o: int, u: int)
    requires Separate(m, o, u)
    ensures Separate(m, u, o)
  {}

  lemma SeparateKept(m: Memory, m': Memory, o: int, s: seq<Byte>, s': seq<Byte>, u: int, t: seq<Byte>, v: int, w: seq<Byte>)
    requires Live(m, o, s) && Live(m, u, t) && Live(m, v, w) && Effect(m, m', o, s', true)
    requires Separate(m, o, u) && Separate(m, o, v) && Separate(m, u, v)
    ensures Separate(m', u, v)
  {
    hide StringOk;
    OthersKept(m, m', o, s, s', u, t);
    OthersKept(m, m', o, s, s', v, w);
    SameAfter(m, m', o, s, s', u, t);
    SameAfter(m, m', o, s, s', v, w);
  }

  lemma StillAccounted(m: Memory, live: map<int, seq<Byte>>, others: set<int>, o: int, m': Memory, s: seq<Byte>)
    requires World(m, live, others) && o in live && Effect(m, m', o, s, true)
    requires forall u | u in live && u != o :: Buffer(m', u) == Buffer(m, u)
    ensures Accounted(m', live[o := s], others)
  {
    hide StringOk, HeapOk, Separate, Buffer, InBuffer;
    var live' := live[o := s];
    assert Frame(m, m', o);
    forall a ensures a in m'.allocs <==> a in others || Owned(m', live', a) {
      assert a in m'.allocs <==> (a in m.allocs && Buffer(m, o) != Some(a)) || Buffer(m', o) == Some(a);
      if Owned(m', live', a) {
        var u :| u in live' && Buffer(m', u) == Some(a);
        assert u != o ==> Buffer(m, u) == Some(a);
        if u != o { DifferentBuffers(m, live, others, o, u, a); }
      }
      if Owned(m, live, a) && Buffer(m, o) != Some(a) {
        var u :| u in live && Buffer(m, u) == Some(a);
        assert u in live' && Buffer(m', u) == Some(a);
      }
      if Buffer(m', o) == Some(a) { assert o in live'; }
    }
    if Buffer(m', o).Some? && Buffer(m', o) != Buffer(m, o) { NewBufferIsNew(m, live, others, o, m', s); }
  }

  lemma DifferentBuffers(m: Memory, live: map<int, seq<Byte>>, others: set<int>, o: int, u: int, a: int)
    requires World(m, live, others) && o in live && u in live && o != u && Buffer(m, u) == Some(a)
    ensures Buffer(m, o) != Some(a) && a in m.allocs
  {
    assert Separate(m, o, u);
    assert Owned(m, live, a);
  }

  lemma NewBufferIsNew(m: Memory, live: map<int, seq<Byte>>, others: set<int>, o: int, m': Memory, s: seq<Byte>)
    requires World(m, live, others) && o in live && Effect(m, m', o, s, true)
    requires Buffer(m', o).Some? && Buffer(m', o) != Buffer(m, o)
    ensures Buffer(m', o).value !in others
  {
    var p := Buffer(m', o).value;
    if p in m.allocs {
      assert AllocationOk(m, p) && AllocationOk(m', p);
      assert p in m.bytes && InBuffer(m', o, p);
    }
  }

  /** What others do keeps the strings, as long as it touches neither them nor their buffers. */
  lemma OthersKeepWorld(S: Strings, S': Strings)
    requires World(S.m, S.live, S.others) && HeapOk(S'.m) && S'.live == S.live
    requires forall o | o in S.live :: SameString(S.m, S'.m, o)
    requires forall a :: a in S'.m.allocs <==> a in S'.others || Owned(S.m, S.live, a)
    requires forall o | o in S.live && Buffer(S.m, o).Some? :: Buffer(S.m, o).value !in S'.others
    ensures World(S'.m, S'.live, S'.others)
  {
    hide StringOk, SameString, Separate, HeapOk, Buffer;
    forall o | o in S.live ensures StringOk(S'.m, o, S.live[o]) && Buffer(S'.m, o) == Buffer(S.m, o) {
      SameStringIsOk(S.m, S'.m, o, S.live[o]);
    }
    forall o, u | o in S.live && u in S.live && o != u ensures Separate(S'.m, o, u) { SameSeparate(S.m, S'.m, o, u); }
    forall a ensures a in S'.m.allocs <==> a in S'.others || Owned(S'.m, S'.live, a) {
      SameOwned(S.m, S'.m, S.live, a);
    }
  }

  lemma SameOwned(m: Memory, m': Memory, live: map<int, seq<Byte>>, a: int)
    requires forall o | o in live :: Buffer(m', o) == Buffer(m, o)
    ensures Owned(m', live, a) <==> Owned(m, live, a)
  {
    hide Buffer;
    if Owned(m', live, a) {
      var o :| o in live && Buffer(m', o) == Some(a);
      assert Buffer(m, o) == Some(a);
    }
    if Owned(m, live, a) {
      var o :| o in live && Buffer(m, o) == Some(a);
      assert Buffer(m', o) == Some(a);
    }
  }

  lemma SameSeparate(m: Memory, m': Memory, o: int, u: int)
    requires SameString(m, m', o) && SameString(m, m', u) && Separate(m, o, u)
    ensures Separate(m', o, u)
  {
    SameHeader(m, m', o);
    SameHeader(m, m', u);
    forall k ensures (InBuffer(m', o, k) <==> InBuffer(m, o, k)) && (InBuffer(m', u, k) <==> InBuffer(m, u, k)) {}
  }

  // ---- The operations by name ----

  datatype Operation =
    | Destroy
    | Assign(p: int, length: Option<nat>)
    | Append(p: int, length: Option<nat>)
    | Erase(position: nat, count: nat)
    | Replace(position: nat, count: nat, p: int, n: nat)
    | Insert(position: nat, p: int, length: Option<nat>)
    | Resize(n: nat, fill: Byte)
    | Reserve(requested: nat)
    | PushBack(byte: Byte)
    | CopyOf(from: int)
    | SubstringOf(from: int, position: nat, count: nat)

  function Mapping(s: Option<seq<Byte>>, f: seq<Byte> -> seq<Byte>): Option<seq<Byte>> {
    if s.None? then None else Some(f(s.value))
  }

  function Substring(s: seq<Byte>, position: nat, count: nat): seq<Byte> {
    var start := Min(position, |s|);
    s[start..start + Min(count, |s| - start)]
  }

  /** The bytes from the position on, as many as asked for or as there are. */
  lemma SubstringParts(s: seq<Byte>, position: nat, count: nat)
    ensures position <= |s| && count <= |s| - position ==> Substring(s, position, count) == s[position..position + count]
    ensures position <= |s| && count > |s| - position ==> Substring(s, position, count) == s[position..]
    ensures position > |s| ==> Substring(s, position, count) == []
  {}

  /** The operation on byte sequences; only its sources are read from memory. None if it fails. */
  function After(op: Operation, m: Memory, s: seq<Byte>): Option<seq<Byte>> {
    match op
    case Destroy => Some([])
    case Assign(p, length) => Source(m, p, length)
    case Append(p, length) => Prepend(s, Source(m, p, length))
    case Erase(position, count) => Some(Spliced(s, position, count, []))
    case Replace(position, count, p, n) => Mapping(Source(m, p, Some(n)), r => Spliced(s, position, count, r))
    case Insert(position, p, length) => Mapping(Source(m, p, length), r => Spliced(s, position, 0, r))
    case Resize(n, fill) => Some(Resized(s, n, fill))
    case Reserve(requested) => if requested <= MAX_CSTRING then Some(s) else None
    case PushBack(byte) => Some(s + [byte])
    case CopyOf(u) => Some(OrEmpty(StringBytes(m, u)))
    case SubstringOf(u, position, count) => Some(Substring(OrEmpty(StringBytes(m, u)), position, count))
  }

  /** The operation has its result on byte sequences exactly if there is one and a place for it, and
      otherwise no effect. */
  ghost predicate Performed(m: Memory, m': Memory, o: int, op: Operation, s: seq<Byte>, ok: bool) {
    var r := After(op, m, s);
    && (if r.None? then !ok && m' == m else Effect(m, m', o, r.value, ok))
    && (op.Destroy? ==> ok && Buffer(m', o).None?)
    && (op.Reserve? ==> (ok <==> CanReserve(m, o, op.requested, |s|)))
    && (op.Reserve? && op.requested <= 22 ==> m' == m)
    && (op.Reserve? && ok && op.requested > 22 ==> Buffer(m', o).Some? && Capacity(m'.bytes, o) >= op.requested)
    && (!op.Reserve? && r.Some? ==> (ok <==> CanHold(m, |r.value|)))
    && (ok ==> r.Some?)
  }

  lemma RefinesPerformed(m: Memory, m': Memory, o: int, op: Operation, s: seq<Byte>, ok: bool)
    requires !op.Destroy? && !op.Reserve? && Refines(m, m', o, After(op, m, s), ok)
    ensures Performed(m, m', o, op, s, ok)
  {}

  /** Calls the function of the name. */
  method Perform(mem: Mem64, o: int, op: Operation, ghost s0: seq<Byte>) returns (ok: bool)
    modifies mem
    ensures old(Live(mem.State(), o, s0)) ==> Performed(old(mem.State()), mem.State(), o, op, s0, ok)
  {
    hide Live, Effect, Refines, Source, StringBytes, Performed;
    ghost var m := mem.State();
    match op {
      case Destroy => ok := PerformDestroy(mem, o, s0);
      case Reserve(requested) => ok := PerformReserve(mem, o, requested, s0);
      case Assign(p, length) => ok := CxxStringAssign(mem, o, p, length, s0);
      case Append(p, length) => ok := CxxStringAppend(mem, o, p, length, s0);
      case Erase(position, count) => ok := CxxStringReplaceRange(mem, o, position, count, [], s0);
      case Replace(position, count, p, n) => ok := PerformReplace(mem, o, position, count, p, n, s0);
      case Insert(position, p, length) => ok := CxxStringInsert(mem, o, position, p, length, s0);
      case Resize(n, fill) => ok := CxxStringResize(mem, o, n, fill, s0);
      case PushBack(byte) => ok := CxxStringPushByte(mem, o, byte, s0);
      case CopyOf(u) => ok := CxxStringWrite(mem, o, OrEmpty(StringBytes(mem.State(), u)), s0);
      case SubstringOf(u, position, count) =>
        ok := CxxStringWrite(mem, o, Substring(OrEmpty(StringBytes(mem.State(), u)), position, count), s0);
    }
    if Live(m, o, s0) && !op.Destroy? && !op.Reserve? { RefinesPerformed(m, mem.State(), o, op, s0, ok); }
  }

  method PerformDestroy(mem: Mem64, o: int, ghost s0: seq<Byte>) returns (ok: bool)
    modifies mem
    ensures old(Live(mem.State(), o, s0)) ==> Performed(old(mem.State()), mem.State(), o, Destroy, s0, ok)
  {
    hide Live, Effect;
    CxxStringDestroy(mem, o, s0);
    return true;
  }

  method PerformReserve(mem: Mem64, o: int, requested: nat, ghost s0: seq<Byte>) returns (ok: bool)
    modifies mem
    ensures old(Live(mem.State(), o, s0)) ==> Performed(old(mem.State()), mem.State(), o, Reserve(requested), s0, ok)
  {
    hide Live, Effect, Performed, IsLong, Capacity;
    ghost var m := mem.State();
    ok := CxxStringReserve(mem, o, requested, s0);
    if Live(m, o, s0) { ReservePerformed(m, mem.State(), o, requested, s0, ok); }
  }

  lemma ReservePerformed(m: Memory, m': Memory, o: int, requested: nat, s: seq<Byte>, ok: bool)
    requires Effect(m, m', o, s, ok) && (requested <= 22 ==> ok && m' == m) && (ok ==> requested <= MAX_CSTRING)
    requires ok <==> CanReserve(m, o, requested, |s|)
    requires ok && requested > 22 ==> IsLong(m'.bytes, o) && Capacity(m'.bytes, o) >= requested
    ensures Performed(m, m', o, Reserve(requested), s, ok)
  {
    hide Frame, StringOk, HeapOk;
  }

  method PerformReplace(mem: Mem64, o: int, position: nat, count: nat, p: int, n: nat, ghost s0: seq<Byte>) returns (ok: bool)
    modifies mem
    ensures old(Live(mem.State(), o, s0)) ==>
      Refines(old(mem.State()), mem.State(), o, After(Replace(position, count, p, n), old(mem.State()), s0), ok)
  {
    hide Live, Effect, Source;
    var replacement := CxxStringSource(mem, p, Some(n));
    if replacement.None? { return false; }
    ok := CxxStringReplaceRange(mem, o, position, count, replacement.value, s0);
  }

  /** Where a string's characters are. */
  function Data(m: Memory, u: int): int { if IsLong(m.bytes, u) then Pointer(m.bytes, u) else u }

  /** A string is a source, by its length or, without NULs, by its terminator; so operations on
      strings are operations on their contents. */
  lemma StringAsSource(m: Memory, u: int, t: seq<Byte>)
    requires Live(m, u, t)
    ensures Source(m, Data(m, u), Some(|t|)) == Some(t) && OrEmpty(StringBytes(m, u)) == t
    ensures 0 !in t && |t| < MAX_CSTRING ==> Source(m, Data(m, u), None) == Some(t)
  {
    hide CString;
    ReadsBack(m, u, t);
    LiveLength(m, u, t);
    var p := Data(m, u);
    assert Holds(m.bytes, p, t);
    assert Get(m.bytes, p, |t|) == t by {
      GetPart(m.bytes, p, |t| + 1, 0, |t|);
      assert (t + [0])[0..|t|] == t;
    }
    if 0 !in t && |t| < MAX_CSTRING { CStringReads(m.bytes, p, t, MAX_CSTRING); }
  }

  // ---- Runs ----

  /** The memory, the contents of the live strings, and the allocations of others. */
  datatype Strings = Strings(m: Memory, live: map<int, seq<Byte>>, others: set<int>)

  /** An operation on a string, the beginning and the end of an object's life, and what others do:
      allocate, free, and store anywhere else. */
  datatype Event =
    | Performs(o: int, op: Operation, ok: bool)
    | Begins(o: int, s: seq<Byte>)
    | Ends(o: int)
    | Allocates(a: int, n: nat)
    | Frees(a: int)
    | Stores(a: int, bytes: seq<Byte>)

  /** The part of the state an event finds is enough for it to happen. */
  ghost predicate EventOk(S: Strings, e: Event) {
    match e
    case Performs(o, op, ok) => o in S.live && (ok ==> After(op, S.m, S.live[o]).Some?)
    case Begins(o, s) => (
      && o !in S.live && StringOk(S.m, o, s) && Buffer(S.m, o).None?
      && forall u | u in S.live :: Separate(S.m, o, u))
    case Ends(o) => o in S.live && Buffer(S.m, o).None?
    case Allocates(a, n) => 0 < a && 16 <= n && a + n <= U64_MAX && Unmapped(S.m.bytes, a, n)
    case Frees(a) => a in S.others && forall o, k | o in S.live && a in S.m.allocs && a <= k < a + S.m.allocs[a] :: !InObject(o, k)
    case Stores(a, bytes) => forall o, k | o in S.live && a <= k < a + |bytes| :: !InObject(o, k) && !InBuffer(S.m, o, k)
  }

  /** The contents afterwards: those of the operations on byte sequences. */
  function Contents(m: Memory, live: map<int, seq<Byte>>, e: Event): map<int, seq<Byte>> {
    match e
    case Performs(o, op, ok) =>
      if ok && o in live && After(op, m, live[o]).Some? then live[o := After(op, m, live[o]).value] else live
    case Begins(o, s) => live[o := s]
    case Ends(o) => live - {o}
    case _ => live
  }

  ghost predicate Step(S: Strings, e: Event, S': Strings) {
    && EventOk(S, e) && S'.live == Contents(S.m, S.live, e)
    && match e
       case Performs(o, op, ok) => Performed(S.m, S'.m, o, op, S.live[o], ok) && S'.others == S.others
       case Begins(_, _) => S'.m == S.m && S'.others == S.others
       case Ends(_) => S'.m == S.m && S'.others == S.others
       case Allocates(a, n) => S'.m == Allocated(S.m, a, n) && S'.others == S.others + {a}
       case Frees(a) => S'.m == Freed(S.m, a) && S'.others == S.others - {a}
       case Stores(a, bytes) => S'.m == S.m.(bytes := Put(S.m.bytes, a, bytes)) && S'.others == S.others
  }

  /** Performing an operation on a live string is such a step, with the content of the operation on
      byte sequences. */
  lemma PerformedIsStep(S: Strings, o: int, op: Operation, m': Memory, ok: bool)
    requires World(S.m, S.live, S.others) && o in S.live
    ensures Live(S.m, o, S.live[o])
    ensures Performed(S.m, m', o, op, S.live[o], ok) ==>
      var s := After(op, S.m, S.live[o]);
      Step(S, Performs(o, op, ok), Strings(m', if ok && s.Some? then S.live[o := s.value] else S.live, S.others))
  {
    hide StringOk, HeapOk, Frame, After, Separate;
  }

  lemma PerformsKeepsWorld(S: Strings, o: int, op: Operation, ok: bool, S': Strings)
    requires World(S.m, S.live, S.others) && Step(S, Performs(o, op, ok), S')
    ensures World(S'.m, S'.live, S'.others)
  {
    hide World, After, Effect;
    if ok {
      EffectKeepsWorld(S.m, S.live, S.others, o, S'.m, After(op, S.m, S.live[o]).value);
    } else {
      FailedUnchanged(S.m, S'.m, o, op, S.live[o]);
    }
  }

  lemma FailedUnchanged(m: Memory, m': Memory, o: int, op: Operation, s: seq<Byte>)
    requires Performed(m, m', o, op, s, false)
    ensures m' == m
  {}

  lemma BeginsKeepsWorld(S: Strings, o: int, s: seq<Byte>, S': Strings)
    requires World(S.m, S.live, S.others) && Step(S, Begins(o, s), S')
    ensures World(S'.m, S'.live, S'.others)
  {
    hide StringOk, HeapOk, Separate, Buffer;
    forall u, v | u in S'.live && v in S'.live && u != v ensures Separate(S.m, u, v) {
      if v == o { SeparateSymmetric(S.m, o, u); }
    }
    forall a ensures Owned(S.m, S'.live, a) <==> Owned(S.m, S.live, a) {
      if Owned(S.m, S'.live, a) {
        var u :| u in S'.live && Buffer(S.m, u) == Some(a);
        assert u in S.live;
      }
      if Owned(S.m, S.live, a) {
        var u :| u in S.live && Buffer(S.m, u) == Some(a);
        assert u in S'.live;
      }
    }
  }

  lemma EndsKeepsWorld(S: Strings, o: int, S': Strings)
    requires World(S.m, S.live, S.others) && Step(S, Ends(o), S')
    ensures World(S'.m, S'.live, S'.others)
  {
    hide StringOk, HeapOk, Separate, Buffer;
    forall a ensures Owned(S.m, S'.live, a) <==> Owned(S.m, S.live, a) {
      if Owned(S.m, S'.live, a) {
        var u :| u in S'.live && Buffer(S.m, u) == Some(a);
        assert u in S.live;
      }
      if Owned(S.m, S.live, a) {
        var u :| u in S.live && Buffer(S.m, u) == Some(a);
        assert u in S'.live;
      }
    }
  }

  lemma AllocatesKeepsWorld(S: Strings, a: int, n: nat, S': Strings)
    requires World(S.m, S.live, S.others) && Step(S, Allocates(a, n), S')
    ensures World(S'.m, S'.live, S'.others)
  {
    hide StringOk, HeapOk, Separate, Owned;
    AllocatedOk(S.m, a, n);
    assert S'.m.allocs.Keys == S.m.allocs.Keys + {a};
    forall o | o in S.live ensures SameString(S.m, S'.m, o) && Buffer(S.m, o) != Some(a) {
      StringIsMapped(S.m, o, S.live[o]);
    }
    OthersKeepWorld(S, S');
  }

  lemma StringIsMapped(m: Memory, o: int, s: seq<Byte>)
    requires Live(m, o, s)
    ensures forall k | InObject(o, k) || InBuffer(m, o, k) :: k in m.bytes
    ensures Buffer(m, o).Some? ==> Buffer(m, o).value in m.allocs
  {
    if Buffer(m, o).Some? { assert AllocationOk(m, Buffer(m, o).value); }
  }

  lemma FreesKeepsWorld(S: Strings, a: int, S': Strings)
    requires World(S.m, S.live, S.others) && Step(S, Frees(a), S')
    ensures World(S'.m, S'.live, S'.others)
  {
    hide StringOk, Separate, Owned;
    FreedOk(S.m, a);
    assert a in S.m.allocs;
    forall o | o in S.live ensures SameString(S.m, S'.m, o) && Buffer(S.m, o) != Some(a) {
      StringIsMapped(S.m, o, S.live[o]);
    }
    forall c ensures c in S'.m.allocs <==> c in S'.others || Owned(S.m, S.live, c) {
      if c == a && Owned(S.m, S.live, a) { OwnedIsBuffer(S.m, S.live, a); }
    }
    OthersKeepWorld(S, S');
  }

  lemma OwnedIsBuffer(m: Memory, live: map<int, seq<Byte>>, a: int)
    requires Owned(m, live, a)
    ensures !forall o | o in live :: Buffer(m, o) != Some(a)
  {}

  lemma StoresKeepsWorld(S: Strings, a: int, bytes: seq<Byte>, S': Strings)
    requires World(S.m, S.live, S.others) && Step(S, Stores(a, bytes), S')
    ensures World(S'.m, S'.live, S'.others)
  {
    hide StringOk, HeapOk, Separate, Owned;
    PutHeapOk(S.m, S'.m.bytes);
    forall o | o in S.live ensures SameString(S.m, S'.m, o) {
      StringIsMapped(S.m, o, S.live[o]);
    }
    OthersKeepWorld(S, S');
  }

  lemma StepKeepsWorld(S: Strings, e: Event, S': Strings)
    requires World(S.m, S.live, S.others) && Step(S, e, S')
    ensures World(S'.m, S'.live, S'.others)
  {
    hide World, Step;
    match e
    case Performs(o, op, ok) => PerformsKeepsWorld(S, o, op, ok, S');
    case Begins(o, s) => BeginsKeepsWorld(S, o, s, S');
    case Ends(o) => EndsKeepsWorld(S, o, S');
    case Allocates(a, n) => AllocatesKeepsWorld(S, a, n, S');
    case Frees(a) => FreesKeepsWorld(S, a, S');
    case Stores(a, bytes) => StoresKeepsWorld(S, a, bytes, S');
  }

  ghost predicate IsRun(states: seq<Strings>, events: seq<Event>) {
    |states| == |events| + 1 && forall i | 0 <= i < |events| :: Step(states[i], events[i], states[i + 1])
  }

  lemma {:induction false} RunKeepsWorld(states: seq<Strings>, events: seq<Event>, n: nat)
    requires IsRun(states, events) && World(states[0].m, states[0].live, states[0].others) && n <= |events|
    ensures World(states[n].m, states[n].live, states[n].others)
    decreases n
  {
    hide World, Step;
    if n > 0 {
      RunKeepsWorld(states, events, n - 1);
      assert Step(states[n - 1], events[n - 1], states[n - 1 + 1]);
      StepKeepsWorld(states[n - 1], events[n - 1], states[n]);
    }
  }

  /** Once no string has a buffer, as after destroying them, nothing of theirs is left on the heap. */
  lemma NothingLeaks(states: seq<Strings>, events: seq<Event>, n: nat)
    requires IsRun(states, events) && World(states[0].m, states[0].live, states[0].others) && n <= |events|
    requires forall o | o in states[n].live :: Buffer(states[n].m, o).None?
    ensures states[n].m.allocs.Keys == states[n].others
  {
    RunKeepsWorld(states, events, n);
    hide IsRun, HeapOk, StringOk, Separate;
    forall a ensures a in states[n].m.allocs.Keys <==> a in states[n].others {}
  }

  /** The content of one string by the events alone: every operation on it applied to the content
      it had, every other event ignored. */
  function ContentOf(first: Option<seq<Byte>>, states: seq<Strings>, events: seq<Event>, o: int, n: nat): Option<seq<Byte>>
    requires |states| == |events| + 1 && n <= |events|
  {
    if n == 0 then first
    else
      var before := ContentOf(first, states, events, o, n - 1);
      match events[n - 1]
      case Performs(u, op, ok) => if u == o && ok && before.Some? then After(op, states[n - 1].m, before.value) else before
      case Begins(u, s) => if u == o then Some(s) else before
      case Ends(u) => if u == o then None else before
      case _ => before
  }

  function Lookup(live: map<int, seq<Byte>>, o: int): Option<seq<Byte>> { if o in live then Some(live[o]) else None }

  lemma {:induction false} ContentIsTracked(states: seq<Strings>, events: seq<Event>, o: int, n: nat)
    requires IsRun(states, events) && n <= |events|
    ensures ContentOf(Lookup(states[0].live, o), states, events, o, n) == Lookup(states[n].live, o)
    decreases n
  {
    hide After, Performed;
    if n > 0 {
      ContentIsTracked(states, events, o, n - 1);
      assert Step(states[n - 1], events[n - 1], states[n - 1 + 1]);
    }
  }

  /** Through any run of operations on any number of strings, with others allocating, freeing and
      storing in between, every string reads back as its own operations on byte sequences say. */
  lemma StringsReadBack(states: seq<Strings>, events: seq<Event>, o: int, n: nat)
    requires IsRun(states, events) && World(states[0].m, states[0].live, states[0].others) && n <= |events|
    requires o in states[n].live
    ensures StringBytes(states[n].m, o) == ContentOf(Lookup(states[0].live, o), states, events, o, n)
  {
    RunKeepsWorld(states, events, n);
    ContentIsTracked(states, events, o, n);
    hide IsRun, Separate, ContentOf, Accounted;
    ReadsBack(states[n].m, o, states[n].live[o]);
  }
}
