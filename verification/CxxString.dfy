/** libc++ strings in guest memory. An object of 24 bytes holds up to 22 characters itself, with
    the length in its last byte; a longer string is in a buffer on the heap, and the object holds
    pointer, length and capacity, the top bit of the capacity marking the long form. */
module CxxString {
  import opened GuestMemory64

  const MAX_CSTRING := 0x10_0000
  const LONG := 0x8000_0000_0000_0000
  const OBJECT_SIZE := 24

  // ---- Representation ----

  predicate IsLong(b: Bytes, o: int) { o + 23 in b && b[o + 23] >= 128 }

  function Pointer(b: Bytes, o: int): nat { WordOr0(b, o) }

  function Length(b: Bytes, o: int): nat { WordOr0(b, o + 8) }

  function Capacity(b: Bytes, o: int): nat { WordOr0(b, o + 16) % LONG }

  predicate ShortOk(m: Memory, o: int, s: seq<Byte>)
    requires o + 23 in m.bytes
  {
    |s| <= 22 && m.bytes[o + 23] == |s| && Holds(m.bytes, o, s)
  }

  predicate LongOk(m: Memory, o: int, s: seq<Byte>) {
    var p := Pointer(m.bytes, o);
    && |s| <= MAX_CSTRING && Length(m.bytes, o) == |s| <= Capacity(m.bytes, o)
    && p in m.allocs && Capacity(m.bytes, o) < m.allocs[p] && Holds(m.bytes, p, s)
    && (p + m.allocs[p] <= o || o + OBJECT_SIZE <= p)
  }

  /** The object at o represents the string s. */
  predicate StringOk(m: Memory, o: int, s: seq<Byte>) {
    Mapped(m.bytes, o, OBJECT_SIZE) && if IsLong(m.bytes, o) then LongOk(m, o, s) else ShortOk(m, o, s)
  }

  /** The buffer the object owns. */
  function Buffer(m: Memory, o: int): Option<int> {
    if IsLong(m.bytes, o) then Some(Pointer(m.bytes, o)) else None
  }

  predicate InBuffer(m: Memory, o: int, k: int) {
    var p := Buffer(m, o);
    p.Some? && p.value in m.allocs && p.value <= k < p.value + m.allocs[p.value]
  }

  predicate InObject(o: int, k: int) { o <= k < o + OBJECT_SIZE }

  // ---- What an operation may do ----

  /** The object's old buffer is freed or kept, a new one is fresh, and nothing else changes. */
  ghost predicate Frame(m: Memory, m': Memory, o: int) {
    && (forall a :: a in m'.allocs <==> (a in m.allocs && Buffer(m, o) != Some(a)) || Buffer(m', o) == Some(a))
    && (forall a | a in m.allocs && a in m'.allocs :: m'.allocs[a] == m.allocs[a])
    && (forall k | k in m.bytes && !InBuffer(m, o, k) :: k in m'.bytes && !(InBuffer(m', o, k)))
    && (forall k | k in m.bytes && !InBuffer(m, o, k) && !InObject(o, k) :: m'.bytes[k] == m.bytes[k])
    && (forall k | k in m'.bytes :: InBuffer(m', o, k) || (k in m.bytes && !InBuffer(m, o, k)))
  }

  /** A successful operation makes the object represent s; a failed one changes nothing. */
  ghost predicate Effect(m: Memory, m': Memory, o: int, s: seq<Byte>, ok: bool) {
    if ok then HeapOk(m') && StringOk(m', o, s) && Frame(m, m', o) else m' == m
  }

  ghost predicate Live(m: Memory, o: int, s: seq<Byte>) { HeapOk(m) && StringOk(m, o, s) }

  // ---- Reading ----

  /** The characters of a string object, if it is one. */
  function StringBytes(m: Memory, o: int): Option<seq<Byte>> {
    var b := m.bytes;
    if o + 23 !in b then None
    else if b[o + 23] >= 128 then
      if !Mapped(b, o, 8) || !Mapped(b, o + 8, 8) || !Mapped(b, o + 16, 8) then None
      else if Pointer(b, o) == 0 || Length(b, o) > Capacity(b, o) || Length(b, o) > MAX_CSTRING then None
      else if Mapped(b, Pointer(b, o), Length(b, o)) then Some(Get(b, Pointer(b, o), Length(b, o))) else None
    else if b[o + 23] > 22 || !Mapped(b, o, b[o + 23]) then None
    else Some(Get(b, o, b[o + 23]))
  }

  lemma ReadsBack(m: Memory, o: int, s: seq<Byte>)
    requires Live(m, o, s)
    ensures StringBytes(m, o) == Some(s)
  {
    if IsLong(m.bytes, o) {
      var p := Pointer(m.bytes, o);
      assert AllocationOk(m, p);
      assert Get(m.bytes, p, |s| + 1)[..|s|] == s;
      GetPart(m.bytes, p, |s| + 1, 0, |s|);
    } else {
      assert Get(m.bytes, o, |s| + 1)[..|s|] == s;
      GetPart(m.bytes, o, |s| + 1, 0, |s|);
    }
  }

  /** What lies in guest memory. In the long form, the words of the object are the address of a buffer
      with the bytes and a terminator, the length, and the capacity with the top bit set; in the short
      form, the bytes and a terminator are in the object, with the length in the last byte. */
  lemma ObjectLayout(m: Memory, o: int, s: seq<Byte>)
    requires Live(m, o, s)
    ensures Mapped(m.bytes, o, 24)
    ensures m.bytes[o + 23] >= 128 ==>
      var p, capacity := FromLe(Get(m.bytes, o, 8)), FromLe(Get(m.bytes, o + 16, 8)) - LONG;
      && FromLe(Get(m.bytes, o + 8, 8)) == |s| <= capacity
      && p in m.allocs && capacity < m.allocs[p]
      && Mapped(m.bytes, p, |s| + 1) && Get(m.bytes, p, |s| + 1) == s + [0]
    ensures m.bytes[o + 23] < 128 ==> m.bytes[o + 23] == |s| <= 22 && Get(m.bytes, o, |s| + 1) == s + [0]
  {
    var top := Get(m.bytes, o + 16, 8);
    assert top[7] == m.bytes[o + 23];
    TopByte(top);
  }

  /** The buffer that writing replaces; 0 if there is none. */
  function OldPointer(m: Memory, o: int): nat {
    var p := Pointer(m.bytes, o);
    if IsLong(m.bytes, o) && p != 0 && Length(m.bytes, o) <= Capacity(m.bytes, o) && p in m.allocs then p else 0
  }

  lemma OldPointerIsBuffer(m: Memory, o: int, s: seq<Byte>)
    requires Live(m, o, s)
    ensures OldPointer(m, o) == if IsLong(m.bytes, o) then Pointer(m.bytes, o) else 0
    ensures OldPointer(m, o) != 0 <==> IsLong(m.bytes, o)
    ensures OldPointer(m, o) != 0 ==> OldPointer(m, o) in m.allocs
  {
    if IsLong(m.bytes, o) { assert AllocationOk(m, Pointer(m.bytes, o)); }
  }

  // ---- Writing ----

  function ShortObject(s: seq<Byte>): (r: seq<Byte>)
    requires |s| <= 22
    ensures |r| == 23
  {
    s + seq(23 - |s|, i => 0)
  }

  function TagByte(s: seq<Byte>): (r: seq<Byte>)
    requires |s| <= 22
    ensures |r| == 1
  {
    var tag: Byte := |s|;
    [tag]
  }

  function LongObject(p: nat, length: nat, capacity: nat): (r: seq<Byte>)
    ensures |r| == OBJECT_SIZE
  {
    ToLe(p, 8) + ToLe(length, 8) + ToLe(capacity + LONG, 8)
  }

  function FreedOld(m: Memory, p: nat): Memory { if p == 0 then m else Freed(m, p) }

  /** The short form in place, and the old buffer gone. */
  function ShortForm(m: Memory, o: int, s: seq<Byte>): Memory
    requires |s| <= 22
  {
    FreedOld(m.(bytes := Put(m.bytes, o, ShortObject(s) + TagByte(s))), OldPointer(m, o))
  }

  /** A new buffer with the characters, the object pointing to it, and the old buffer gone. */
  function LongForm(m: Memory, o: int, s: seq<Byte>, p: nat, size: nat, capacity: nat): Memory {
    var m1 := Allocated(m, p, size);
    var b := Put(Put(m1.bytes, p, s + [0]), o, LongObject(p, |s|, capacity));
    FreedOld(m1.(bytes := b), OldPointer(m, o))
  }

  lemma ShortObjectOk(b: Bytes, o: int, s: seq<Byte>)
    requires |s| <= 22 && Mapped(b, o, OBJECT_SIZE)
    ensures var b' := Put(b, o, ShortObject(s) + TagByte(s));
      Mapped(b', o, OBJECT_SIZE) && b'[o + 23] == |s| && Holds(b', o, s)
  {
    var b' := Put(b, o, ShortObject(s) + TagByte(s));
    PutKeepsMapped(b, o, ShortObject(s) + TagByte(s), o, OBJECT_SIZE);
    PutKeepsMapped(b, o, ShortObject(s) + TagByte(s), o, |s| + 1);
    assert Get(b', o, |s| + 1) == s + [0];
  }

  lemma LongObjectParts(p: nat, length: nat, capacity: nat)
    requires capacity < LONG
    ensures var w := LongObject(p, length, capacity);
      w[0..8] == ToLe(p, 8) && w[8..16] == ToLe(length, 8) && w[16..24] == ToLe(capacity + LONG, 8) && w[23] >= 128
  {
    var w := LongObject(p, length, capacity);
    var top := ToLe(capacity + LONG, 8);
    hide ToLe;
    assert w[23] == top[7];
    WordRoundTrip(capacity + LONG);
    TopByte(top);
  }

  lemma LongObjectOk(b: Bytes, o: int, p: nat, length: nat, capacity: nat)
    requires Mapped(b, o, OBJECT_SIZE) && p <= U64_MAX && length <= U64_MAX && capacity < LONG
    ensures var b' := Put(b, o, LongObject(p, length, capacity));
      && Mapped(b', o, OBJECT_SIZE) && IsLong(b', o)
      && Pointer(b', o) == p && Length(b', o) == length && Capacity(b', o) == capacity
  {
    hide ToLe, WordOr0, LongObject;
    var w := LongObject(p, length, capacity);
    LongObjectParts(p, length, capacity);
    PutKeepsMapped(b, o, w, o, OBJECT_SIZE);
    PutWord(b, o, w, 0, p);
    PutWord(b, o, w, 8, length);
    PutWord(b, o, w, 16, capacity + LONG);
  }

  /** The object and its buffer look the same in both memories. */
  ghost predicate SameString(m: Memory, m': Memory, o: int) {
    && (forall k | InObject(o, k) :: k in m.bytes && k in m'.bytes && m'.bytes[k] == m.bytes[k])
    && (forall k | InBuffer(m, o, k) :: k in m.bytes && k in m'.bytes && m'.bytes[k] == m.bytes[k])
    && (Buffer(m, o).Some? ==> var p := Buffer(m, o).value; p in m.allocs && p in m'.allocs && m'.allocs[p] == m.allocs[p])
  }

  lemma SameHeader(m: Memory, m': Memory, o: int)
    requires SameString(m, m', o)
    ensures IsLong(m'.bytes, o) == IsLong(m.bytes, o) && Pointer(m'.bytes, o) == Pointer(m.bytes, o)
    ensures Length(m'.bytes, o) == Length(m.bytes, o) && Capacity(m'.bytes, o) == Capacity(m.bytes, o)
    ensures Buffer(m', o) == Buffer(m, o) && Mapped(m'.bytes, o, OBJECT_SIZE)
  {
    assert InObject(o, o + 23);
    forall k | o <= k < o + OBJECT_SIZE ensures k in m.bytes && k in m'.bytes && m'.bytes[k] == m.bytes[k] {
      assert InObject(o, k);
    }
    SameWord(m.bytes, m'.bytes, o);
    SameWord(m.bytes, m'.bytes, o + 8);
    SameWord(m.bytes, m'.bytes, o + 16);
  }

  lemma SameHolds(b: Bytes, b': Bytes, a: int, s: seq<Byte>)
    requires Holds(b, a, s) && forall k | a <= k <= a + |s| :: k in b' && b'[k] == b[k]
    ensures Holds(b', a, s)
  {
    assert Get(b', a, |s| + 1) == Get(b, a, |s| + 1);
  }

  lemma SameStringIsOk(m: Memory, m': Memory, o: int, s: seq<Byte>)
    requires StringOk(m, o, s) && SameString(m, m', o)
    ensures StringOk(m', o, s) && Buffer(m', o) == Buffer(m, o) && Capacity(m'.bytes, o) == Capacity(m.bytes, o)
  {
    SameHeader(m, m', o);
    if IsLong(m.bytes, o) {
      var p := Pointer(m.bytes, o);
      forall k | p <= k <= p + |s| ensures k in m'.bytes && m'.bytes[k] == m.bytes[k] { assert InBuffer(m, o, k); }
      SameHolds(m.bytes, m'.bytes, p, s);
    } else {
      assert InObject(o, o + 23);
      forall k | o <= k <= o + |s| ensures k in m'.bytes && m'.bytes[k] == m.bytes[k] { assert InObject(o, k); }
      SameHolds(m.bytes, m'.bytes, o, s);
    }
  }

  /** Freeing an allocation that is neither the string's nor under its object. */
  lemma FreeingKeepsString(m: Memory, q: int, o: int, s: seq<Byte>)
    requires Live(m, o, s) && q in m.allocs && Buffer(m, o) != Some(q)
    requires q + m.allocs[q] <= o || o + OBJECT_SIZE <= q
    ensures Live(Freed(m, q), o, s) && Buffer(Freed(m, q), o) == Buffer(m, o)
    ensures Capacity(Freed(m, q).bytes, o) == Capacity(m.bytes, o)
  {
    FreedOk(m, q);
    if Buffer(m, o).Some? { assert AllocationOk(m, Buffer(m, o).value); }
    SameStringIsOk(m, Freed(m, q), o, s);
  }

  // ---- The two forms ----

  lemma ShortInPlace(m: Memory, o: int, s0: seq<Byte>, s: seq<Byte>)
    requires Live(m, o, s0) && |s| <= 22
    ensures var m1 := m.(bytes := Put(m.bytes, o, ShortObject(s) + TagByte(s)));
      Live(m1, o, s) && !IsLong(m1.bytes, o)
  {
    ShortObjectOk(m.bytes, o, s);
    PutHeapOk(m, Put(m.bytes, o, ShortObject(s) + TagByte(s)));
  }

  lemma ShortEffect(m: Memory, o: int, s0: seq<Byte>, s: seq<Byte>)
    requires Live(m, o, s0) && |s| <= 22
    ensures Effect(m, ShortForm(m, o, s), o, s, true) && !IsLong(ShortForm(m, o, s).bytes, o)
  {
    var m1 := m.(bytes := Put(m.bytes, o, ShortObject(s) + TagByte(s)));
    ShortInPlace(m, o, s0, s);
    OldPointerIsBuffer(m, o, s0);
    var q := OldPointer(m, o);
    if q != 0 { FreeingKeepsString(m1, q, o, s); }
  }

  lemma LongInPlace(m: Memory, o: int, s0: seq<Byte>, s: seq<Byte>, p: nat, size: nat, capacity: nat)
    requires Live(m, o, s0) && |s| <= MAX_CSTRING && |s| <= capacity < size && capacity < LONG
    requires 0 < p && 16 <= size && p + size <= U64_MAX && Unmapped(m.bytes, p, size)
    ensures var m1 := Allocated(m, p, size);
      var m2 := m1.(bytes := Put(Put(m1.bytes, p, s + [0]), o, LongObject(p, |s|, capacity)));
      Live(m2, o, s) && Buffer(m2, o) == Some(p) && Capacity(m2.bytes, o) == capacity
  {
    hide LongObject;
    var m1 := Allocated(m, p, size);
    AllocatedOk(m, p, size);
    Apart(m, o, p, size);
    var b1 := Put(m1.bytes, p, s + [0]);
    PutKeepsMapped(m1.bytes, p, s + [0], o, OBJECT_SIZE);
    var b2 := Put(b1, o, LongObject(p, |s|, capacity));
    LongObjectOk(b1, o, p, |s|, capacity);
    GetPutSame(m1.bytes, p, s + [0]);
    GetPutOther(b1, o, LongObject(p, |s|, capacity), p, |s| + 1);
    PutHeapOk(m1, b2);
  }

  /** A mapped object and a range where nothing is mapped. */
  lemma Apart(m: Memory, o: int, p: nat, size: nat)
    requires Mapped(m.bytes, o, OBJECT_SIZE) && size > 0 && Unmapped(m.bytes, p, size)
    ensures Mapped(Allocated(m, p, size).bytes, o, OBJECT_SIZE) && (p + size <= o || o + OBJECT_SIZE <= p)
  {
    assert o in m.bytes;
    assert o < p < o + OBJECT_SIZE ==> p in m.bytes;
  }

  /** A new allocation at p, the object rewritten, and then the old buffer q freed. */
  lemma LongFrame(m: Memory, m2: Memory, o: int, p: nat, size: nat, q: nat)
    requires HeapOk(m) && Unmapped(m.bytes, p, size) && size > 0 && p != 0
    requires m2.allocs == m.allocs[p := size] && m2.bytes.Keys == Allocated(m, p, size).bytes.Keys
    requires forall k | k in m.bytes && !InObject(o, k) :: m2.bytes[k] == m.bytes[k]
    requires Buffer(m, o) == (if q == 0 then None else Some(q)) && (q != 0 ==> q in m.allocs)
    requires Buffer(FreedOld(m2, q), o) == Some(p)
    ensures Frame(m, FreedOld(m2, q), o)
  {
    hide Buffer, Allocated;
    var m3 := FreedOld(m2, q);
    assert forall k :: k in m2.bytes <==> k in m.bytes || p <= k < p + size by { AllocatedKeys(m, m2, p, size); }
    if q != 0 { assert AllocationOk(m, q) && q in m.bytes; }
    FreshIsNew(m, p, size);
    assert m3.allocs[p] == size;
  }

  lemma LongEffect(m: Memory, o: int, s0: seq<Byte>, s: seq<Byte>, p: nat, size: nat, capacity: nat)
    requires Live(m, o, s0) && |s| <= MAX_CSTRING && |s| <= capacity < size && capacity < LONG
    requires 0 < p && 16 <= size && p + size <= U64_MAX && Unmapped(m.bytes, p, size)
    ensures Effect(m, LongForm(m, o, s, p, size, capacity), o, s, true)
    ensures Buffer(LongForm(m, o, s, p, size, capacity), o) == Some(p)
    ensures Capacity(LongForm(m, o, s, p, size, capacity).bytes, o) == capacity
  {
    hide LongObject;
    var m1 := Allocated(m, p, size);
    var m2 := m1.(bytes := Put(Put(m1.bytes, p, s + [0]), o, LongObject(p, |s|, capacity)));
    LongInPlace(m, o, s0, s, p, size, capacity);
    OldPointerIsBuffer(m, o, s0);
    FreshIsNew(m, p, size);
    var q := OldPointer(m, o);
    if q != 0 { FreeingKeepsString(m2, q, o, s); }
    LongFrame(m, m2, o, p, size, q);
  }

  /** The buffer to be freed is not the fresh one. */
  lemma OldIsNotNew(m: Memory, o: int, s: seq<Byte>, p: nat, size: nat)
    requires Live(m, o, s) && Unmapped(m.bytes, p, size) && size > 0
    ensures OldPointer(m, o) != p || p == 0
  {
    FreshIsNew(m, p, size);
  }

  // ---- The operations ----

  /** The least power of two from p on that is not below n. */
  function PowerFrom(p: nat, n: nat): (r: nat)
    requires p > 0
    ensures r >= n && (p < n ==> r < 2 * n) && (p >= n ==> r == p)
    decreases n - p
  {
    if p >= n then p else PowerFrom(2 * p, n)
  }

  function NextPowerOfTwo(n: nat): (r: nat)
    ensures r >= n && (n > 1 ==> r < 2 * n)
  {
    PowerFrom(1, n)
  }

  function Pow2(k: nat): (r: nat)
    ensures r > 0
  {
    if k == 0 then 1 else 2 * Pow2(k - 1)
  }

  /** The least power of two that is not below n. */
  ghost predicate IsLeastPower(n: nat, r: nat) {
    r >= n && (exists k: nat :: r == Pow2(k)) && forall k: nat | Pow2(k) >= n :: r <= Pow2(k)
  }

  lemma {:induction false} PowersGrow(j: nat, k: nat)
    requires j <= k
    ensures Pow2(j) <= Pow2(k)
    decreases k
  {
    if j < k { PowersGrow(j, k - 1); }
  }

  lemma {:induction false} PowerFromIsLeast(j: nat, n: nat)
    requires forall k: nat | k < j :: Pow2(k) < n
    ensures IsLeastPower(n, PowerFrom(Pow2(j), n))
    decreases n - Pow2(j)
  {
    if Pow2(j) >= n {
      forall k: nat | Pow2(k) >= n ensures Pow2(j) <= Pow2(k) { if k >= j { PowersGrow(j, k); } }
    } else {
      assert Pow2(j + 1) == 2 * Pow2(j);
      PowerFromIsLeast(j + 1, n);
    }
  }

  /** The capacity of a new buffer for a string of n bytes: the least power of two not below n, but
      at least 23. */
  function NewCapacity(n: nat): nat { Max(NextPowerOfTwo(n), 23) }

  lemma NewCapacityIs(n: nat, c: nat)
    requires IsLeastPower(n, c)
    ensures NewCapacity(n) == if c >= 23 then c else 23
  {
    PowerFromIsLeast(0, n);
    var k: nat :| c == Pow2(k);
    var j: nat :| NextPowerOfTwo(n) == Pow2(j);
  }

  /** There is a place for a string of n bytes: the object itself, or a new buffer. */
  ghost predicate CanHold(m: Memory, n: nat) {
    n <= 22 || (n <= MAX_CSTRING && CanAllocate(m, NewCapacity(n) + 1))
  }

  function Max(a: nat, b: nat): nat { if a > b then a else b }

  function Min(a: nat, b: nat): nat { if a < b then a else b }

  function OrEmpty(s: Option<seq<Byte>>): seq<Byte> { if s.Some? then s.value else [] }

  method WriteShort(mem: Mem64, o: int, s: seq<Byte>) returns (ok: bool)
    requires |s| <= 22
    modifies mem
    ensures old(Mapped(mem.bytes, o, OBJECT_SIZE)) ==> ok && mem.State() == ShortForm(old(mem.State()), o, s)
  {
    hide Put, Written, ShortObject, TagByte, OldPointer;
    ghost var b := mem.bytes;
    var oldPointer := OldPointer(mem.State(), o);
    ok := mem.WriteBytes(o, ShortObject(s));
    if !ok { return; }
    PutKeepsMapped(b, o, ShortObject(s), o + 23, 1);
    ok := mem.WriteBytes(o + 23, TagByte(s));
    if !ok { return; }
    PutPut(b, o, ShortObject(s), TagByte(s));
    if oldPointer != 0 { var freed := mem.Free(oldPointer); }
  }

  /** The three words of the object. */
  method WriteObject(mem: Mem64, o: int, p: nat, length: nat, capacity: nat) returns (ok: bool)
    modifies mem`bytes
    ensures old(Mapped(mem.bytes, o, OBJECT_SIZE)) ==> ok && mem.bytes == Put(old(mem.bytes), o, LongObject(p, length, capacity))
  {
    hide ToLe, Put, Written;
    ghost var b := mem.bytes;
    ok := mem.WriteU64(o, p);
    if !ok { return; }
    PutKeepsMapped(b, o, ToLe(p, 8), o + 8, 8);
    PutKeepsMapped(b, o, ToLe(p, 8), o + 16, 8);
    ghost var b1 := mem.bytes;
    ok := mem.WriteU64(o + 8, length);
    if !ok { return; }
    PutPut(b, o, ToLe(p, 8), ToLe(length, 8));
    PutKeepsMapped(b1, o + 8, ToLe(length, 8), o + 16, 8);
    ok := mem.WriteU64(o + 16, capacity + LONG);
    if !ok { return; }
    PutPut(b, o, ToLe(p, 8) + ToLe(length, 8), ToLe(capacity + LONG, 8));
  }

  /** A fresh buffer holding the characters and their terminator. */
  method NewBuffer(mem: Mem64, s: seq<Byte>, capacity: nat) returns (p: Option<int>)
    requires |s| <= capacity
    modifies mem
    ensures p.None? ==> mem.State() == old(mem.State())
    ensures p.Some? <==> CanAllocate(old(mem.State()), capacity + 1)
    ensures p.Some? ==> 0 < p.value && p.value + Rounded(capacity + 1) <= U64_MAX
    ensures p.Some? ==> Unmapped(old(mem.bytes), p.value, Rounded(capacity + 1))
    ensures p.Some? ==> var m1 := Allocated(old(mem.State()), p.value, Rounded(capacity + 1));
      mem.State() == m1.(bytes := Put(m1.bytes, p.value, s + [0]))
  {
    hide Put, Written;
    p := mem.AllocZeroed(capacity + 1);
    if p.None? { return; }
    ghost var b := mem.bytes;
    var ok := mem.WriteBytes(p.value, s);
    PutKeepsMapped(b, p.value, s, p.value + |s|, 1);
    ok := mem.WriteBytes(p.value + |s|, [0]);
    PutPut(b, p.value, s, [0]);
  }

  method WriteLong(mem: Mem64, o: int, s: seq<Byte>, capacity: nat, ghost s0: seq<Byte>) returns (ok: bool, ghost p: nat)
    requires |s| <= capacity
    modifies mem
    ensures old(Live(mem.State(), o, s0)) && !ok ==> mem.State() == old(mem.State())
    ensures old(Live(mem.State(), o, s0)) ==> (ok <==> CanAllocate(old(mem.State()), capacity + 1))
    ensures ok ==> 0 < p && p + Rounded(capacity + 1) <= U64_MAX && Unmapped(old(mem.bytes), p, Rounded(capacity + 1))
    ensures old(Live(mem.State(), o, s0)) && ok ==>
      mem.State() == LongForm(old(mem.State()), o, s, p, Rounded(capacity + 1), capacity)
  {
    hide Put, LongObject, OldPointer, Allocated;
    ghost var m, size := mem.State(), Rounded(capacity + 1);
    var oldPointer := OldPointer(mem.State(), o);
    var pointer := NewBuffer(mem, s, capacity);
    if pointer.None? { return false, 0; }
    p := pointer.value;
    ghost var mapped := Mapped(m.bytes, o, OBJECT_SIZE);
    if mapped {
      Apart(m, o, p, size);
      PutKeepsMapped(Allocated(m, p, size).bytes, p, s + [0], o, OBJECT_SIZE);
    }
    ok := WriteObject(mem, o, pointer.value, |s|, capacity);
    if !ok { return; }
    if Live(m, o, s0) { OldIsNotNew(m, o, s0, p, size); }
    if oldPointer != 0 && oldPointer != pointer.value { var freed := mem.Free(oldPointer); }
  }

  /** The operation refines one on byte sequences: it has its result exactly if there is one and a
      place for it, and changes nothing otherwise. */
  ghost predicate Refines(m: Memory, m': Memory, o: int, result: Option<seq<Byte>>, ok: bool) {
    if result.None? then !ok && m' == m
    else
      && Effect(m, m', o, result.value, ok) && (ok <==> CanHold(m, |result.value|))
      && (ok && |result.value| > 22 ==> IsLong(m'.bytes, o) && Capacity(m'.bytes, o) == NewCapacity(|result.value|))
      && (ok && |result.value| <= 22 ==> !IsLong(m'.bytes, o))
  }

  method CxxStringWrite(mem: Mem64, o: int, s: seq<Byte>, ghost s0: seq<Byte>) returns (ok: bool)
    modifies mem
    ensures old(Live(mem.State(), o, s0)) ==> Refines(old(mem.State()), mem.State(), o, Some(s), ok)
  {
    hide LongForm, ShortForm, LongObject, Live, Effect, IsLong, Capacity, CanAllocate, NextPowerOfTwo;
    ghost var m := mem.State();
    if |s| > MAX_CSTRING {
      WriteRefused(m, o, s);
      return false;
    }
    if |s| <= 22 {
      ok := WriteShort(mem, o, s);
      if Live(m, o, s0) {
        ShortEffect(m, o, s0, s);
        LiveObject(m, o, s0);
      }
    } else {
      var capacity := Max(NextPowerOfTwo(|s|), 23);
      ghost var p;
      ok, p := WriteLong(mem, o, s, capacity, s0);
      if Live(m, o, s0) {
        WriteRefused(m, o, s);
        if ok {
          LongEffect(m, o, s0, s, p, Rounded(capacity + 1), capacity);
          BufferMeansLong(mem.State(), o);
        }
      }
    }
  }

  lemma WriteRefused(m: Memory, o: int, s: seq<Byte>)
    ensures Effect(m, m, o, s, false)
  {}

  lemma LiveObject(m: Memory, o: int, s: seq<Byte>)
    requires Live(m, o, s)
    ensures Mapped(m.bytes, o, OBJECT_SIZE)
  {}

  lemma NothingDone(m: Memory, o: int, s: seq<Byte>)
    requires Live(m, o, s)
    ensures Effect(m, m, o, s, true)
  {}

  /** The terminator is there already when fresh memory is zero. */
  lemma ZeroTerminated(m: Memory, p: nat, size: nat, s: seq<Byte>)
    requires |s| < size
    ensures var b := Allocated(m, p, size).bytes; Put(b, p, s) == Put(b, p, s + [0])
  {}

  /** Nothing is asked for beyond the object, or the buffer is large enough, or there is a place for
      a new one, large enough for the string, too. */
  ghost predicate CanReserve(m: Memory, o: int, requested: nat, n: nat) {
    || requested <= 22
    || (requested <= MAX_CSTRING
        && ((IsLong(m.bytes, o) && Capacity(m.bytes, o) >= requested)
            || CanAllocate(m, Max(NewCapacity(requested), n) + 1)))
  }

  /** Makes room: afterwards a string with at least the requested capacity owns a buffer. */
  method CxxStringReserve(mem: Mem64, o: int, requested: nat, ghost s0: seq<Byte>) returns (ok: bool)
    modifies mem
    ensures old(Live(mem.State(), o, s0)) ==> Effect(old(mem.State()), mem.State(), o, s0, ok)
    ensures old(Live(mem.State(), o, s0)) && ok && requested > 22 ==>
      IsLong(mem.bytes, o) && Capacity(mem.bytes, o) >= requested
    ensures requested <= 22 ==> ok && mem.State() == old(mem.State())
    ensures old(Live(mem.State(), o, s0)) ==> (ok <==> CanReserve(old(mem.State()), o, requested, |s0|))
    ensures ok ==> requested <= MAX_CSTRING
  {
    hide Live, Effect, Allocated, LongObject, StringBytes, CanAllocate, NextPowerOfTwo;
    ghost var m := mem.State();
    if Live(m, o, s0) { NothingDone(m, o, s0); }
    WriteRefused(m, o, s0);
    if requested <= 22 { return true; }
    if requested > MAX_CSTRING { return false; }
    var current := OrEmpty(StringBytes(mem.State(), o));
    if Live(m, o, s0) {
      ReadsBack(m, o, s0);
      BufferIsAllocated(m, o, s0);
    }
    if IsLong(mem.bytes, o) && Capacity(mem.bytes, o) >= requested && Pointer(mem.bytes, o) in mem.allocs {
      return true;
    }
    var capacity := Max(NextPowerOfTwo(requested), Max(|current|, 23));
    ghost var p, size := 0, Rounded(capacity + 1);
    ok, p := Reallocate(mem, o, current, capacity, s0);
    if ok && Live(m, o, s0) {
      LiveLength(m, o, s0);
      LongEffect(m, o, s0, s0, p, size, capacity);
      BufferMeansLong(mem.State(), o);
    }
  }

  lemma LiveLength(m: Memory, o: int, s: seq<Byte>)
    requires Live(m, o, s)
    ensures |s| <= MAX_CSTRING
  {}

  lemma BufferIsAllocated(m: Memory, o: int, s: seq<Byte>)
    requires Live(m, o, s)
    ensures IsLong(m.bytes, o) ==> Pointer(m.bytes, o) in m.allocs
  {}

  lemma BufferMeansLong(m: Memory, o: int)
    ensures IsLong(m.bytes, o) <==> Buffer(m, o).Some?
  {}

  /** Moves the characters to a buffer of the given capacity. */
  method Reallocate(mem: Mem64, o: int, current: seq<Byte>, capacity: nat, ghost s0: seq<Byte>) returns (ok: bool, ghost p: nat)
    requires |current| <= capacity
    modifies mem
    ensures old(Live(mem.State(), o, s0)) && !ok ==> mem.State() == old(mem.State())
    ensures old(Live(mem.State(), o, s0)) ==> (ok <==> CanAllocate(old(mem.State()), capacity + 1))
    ensures ok ==> 0 < p && p + Rounded(capacity + 1) <= U64_MAX && Unmapped(old(mem.bytes), p, Rounded(capacity + 1))
    ensures old(Live(mem.State(), o, s0)) && ok ==>
      mem.State() == LongForm(old(mem.State()), o, current, p, Rounded(capacity + 1), capacity)
  {
    hide Put, Written, LongObject, OldPointer, Allocated, Live, Pointer, CanAllocate;
    ghost var m, size := mem.State(), Rounded(capacity + 1);
    var pointer := mem.AllocZeroed(capacity + 1);
    if pointer.None? { return false, 0; }
    p := pointer.value;
    ok := mem.WriteBytes(pointer.value, current);
    if !ok { AllocatedIsMapped(m, p, size, |current|); }
    ZeroTerminated(m, p, size, current);
    var oldPointer := if IsLong(mem.bytes, o) then Pointer(mem.bytes, o) else 0;
    ghost var live := Live(m, o, s0);
    if live { ObjectAfterAllocation(m, o, s0, p, size, current); }
    ok := WriteObject(mem, o, pointer.value, |current|, capacity);
    if !ok { return; }
    if oldPointer != 0 && oldPointer != pointer.value { var freed := mem.Free(oldPointer); }
  }

  lemma AllocatedIsMapped(m: Memory, p: nat, size: nat, n: nat)
    requires n <= size
    ensures Mapped(Allocated(m, p, size).bytes, p, n)
  {}

  /** Filling the fresh buffer leaves the object as it was. */
  lemma ObjectAfterAllocation(m: Memory, o: int, s: seq<Byte>, p: nat, size: nat, current: seq<Byte>)
    requires Live(m, o, s) && Unmapped(m.bytes, p, size) && |current| < size
    ensures var b := Put(Allocated(m, p, size).bytes, p, current);
      && Mapped(b, o, OBJECT_SIZE) && IsLong(b, o) == IsLong(m.bytes, o) && Pointer(b, o) == Pointer(m.bytes, o)
      && OldPointer(m, o) == (if IsLong(b, o) then Pointer(b, o) else 0) && (OldPointer(m, o) != p || p == 0)
  {
    Apart(m, o, p, size);
    OldPointerIsBuffer(m, o, s);
    OldIsNotNew(m, o, s, p, size);
    var b := Put(Allocated(m, p, size).bytes, p, current);
    PutKeepsMapped(Allocated(m, p, size).bytes, p, current, o, OBJECT_SIZE);
    forall k | o <= k < o + OBJECT_SIZE ensures k in m.bytes && k in b && b[k] == m.bytes[k] {}
    SameWord(m.bytes, b, o);
  }

  /** A string with all zero bytes is empty. */
  method CxxStringDestroy(mem: Mem64, o: int, ghost s0: seq<Byte>)
    modifies mem
    ensures old(Live(mem.State(), o, s0)) ==> Effect(old(mem.State()), mem.State(), o, [], true) && !IsLong(mem.bytes, o)
  {
    hide Put, Written, ShortObject, TagByte, Live, Effect, Freed, Pointer;
    ghost var m := mem.State();
    var pointer := Pointer(mem.bytes, o);
    if IsLong(mem.bytes, o) && pointer != 0 && pointer in mem.allocs { var freed := mem.Free(pointer); }
    ghost var m1 := mem.State();
    var ok := mem.WriteBytes(o, ShortObject([]));
    if ok {
      PutKeepsMapped(m1.bytes, o, ShortObject([]), o + 23, 1);
      PutPut(m1.bytes, o, ShortObject([]), TagByte([]));
    }
    ok := mem.WriteBytes(o + 23, TagByte([]));
    if Live(m, o, s0) {
      OldPointerIsBuffer(m, o, s0);
      LiveObject(m, o, s0);
      FreeThenWrite(m, o, s0, ShortObject([]) + TagByte([]));
      ShortEffect(m, o, s0, []);
    }
  }

  /** Freeing the buffer and writing to the object commute. */
  lemma FreeThenWrite(m: Memory, o: int, s: seq<Byte>, w: seq<Byte>)
    requires Live(m, o, s) && |w| == OBJECT_SIZE
    ensures var q := OldPointer(m, o);
      && Mapped(FreedOld(m, q).bytes, o, OBJECT_SIZE)
      && FreedOld(m.(bytes := Put(m.bytes, o, w)), q) == FreedOld(m, q).(bytes := Put(FreedOld(m, q).bytes, o, w))
  {
    OldPointerIsBuffer(m, o, s);
  }

  // ---- Operations with a source ----

  function Source(m: Memory, p: int, length: Option<nat>): Option<seq<Byte>> {
    var bytes := if length.None? then CString(m.bytes, p, MAX_CSTRING)
                 else if Mapped(m.bytes, p, length.value) then Some(Get(m.bytes, p, length.value)) else None;
    if bytes.Some? && |bytes.value| > MAX_CSTRING then None else bytes
  }

  /** Walks to the terminator. */
  method ReadCString(mem: Mem64, p: int) returns (r: Option<seq<Byte>>)
    ensures r == CString(mem.bytes, p, MAX_CSTRING)
  {
    hide CString, Prepend;
    var length := 0;
    r := Some([]);
    PrependNothing(CString(mem.bytes, p, MAX_CSTRING));
    while length < MAX_CSTRING
      invariant length <= MAX_CSTRING && r.Some? && |r.value| == length
      invariant CString(mem.bytes, p, MAX_CSTRING) == Prepend(r.value, CString(mem.bytes, p + length, MAX_CSTRING - length))
    {
      CStringStep(mem.bytes, p + length, MAX_CSTRING - length);
      PrependEnd(r.value);
      if p + length !in mem.bytes { return None; }
      var byte := mem.bytes[p + length];
      if byte == 0 { return; }
      PrependMore(r.value, byte, CString(mem.bytes, p + length + 1, MAX_CSTRING - length - 1));
      r := Some(r.value + [byte]);
      length := length + 1;
    }
    PrependEnd(r.value);
    CStringEnd(mem.bytes, p + length);
    return None;
  }

  lemma CStringStep(b: Bytes, p: int, limit: nat)
    requires limit > 0
    ensures p !in b ==> CString(b, p, limit) == None
    ensures p in b && b[p] == 0 ==> CString(b, p, limit) == Some([])
    ensures p in b && b[p] != 0 ==>
      var rest := CString(b, p + 1, limit - 1);
      CString(b, p, limit) == if rest.None? then None else Some([b[p]] + rest.value)
  {}

  lemma CStringEnd(b: Bytes, p: int)
    ensures CString(b, p, 0) == None
  {}

  lemma PrependEnd(s: seq<Byte>)
    ensures Prepend(s, None) == None && Prepend(s, Some([])) == Some(s)
  {
    assert s + [] == s;
  }

  function Prepend(s: seq<Byte>, r: Option<seq<Byte>>): Option<seq<Byte>> { if r.None? then None else Some(s + r.value) }

  lemma PrependNothing(r: Option<seq<Byte>>)
    ensures Prepend([], r) == r
  {
    if r.Some? { assert [] + r.value == r.value; }
  }

  lemma PrependMore(s: seq<Byte>, byte: Byte, r: Option<seq<Byte>>)
    ensures Prepend(s, if r.None? then None else Some([byte] + r.value)) == Prepend(s + [byte], r)
  {
    if r.Some? { assert s + ([byte] + r.value) == (s + [byte]) + r.value; }
  }

  method CxxStringSource(mem: Mem64, p: int, length: Option<nat>) returns (r: Option<seq<Byte>>)
    ensures r == Source(mem.State(), p, length)
  {
    if length.Some? {
      r := mem.ReadBytes(p, length.value);
    } else {
      r := ReadCString(mem, p);
    }
    if r.Some? && |r.value| > MAX_CSTRING { return None; }
  }

  /** `count` bytes from a position replaced; both clamped to the string. */
  function Spliced(s: seq<Byte>, position: nat, count: nat, replacement: seq<Byte>): seq<Byte> {
    var p := Min(position, |s|);
    var end := p + Min(count, |s| - p);
    s[..p] + replacement + s[end..]
  }

  /** What is before the position and what is after the bytes taken out stay, around the replacement. */
  lemma SplicedParts(s: seq<Byte>, position: nat, count: nat, t: seq<Byte>)
    ensures var r := Spliced(s, position, count, t);
      && (position <= |s| && count <= |s| - position ==>
            |r| == |s| - count + |t| && r[..position] == s[..position]
            && r[position..position + |t|] == t && r[position + |t|..] == s[position + count..])
      && (position <= |s| && count > |s| - position ==> r == s[..position] + t)
      && (position > |s| ==> r == s + t)
  {}

  /** Taking out what was inserted gives the string back. */
  lemma InsertThenErase(s: seq<Byte>, position: nat, t: seq<Byte>)
    ensures Spliced(Spliced(s, position, 0, t), if position < |s| then position else |s|, |t|, []) == s
  {
    var p := Min(position, |s|);
    SplicedParts(s, p, 0, t);
    assert Spliced(s, position, 0, t) == Spliced(s, p, 0, t);
    assert s == s[..p] + [] + s[p..];
  }

  function Resized(s: seq<Byte>, length: nat, fill: Byte): (r: seq<Byte>)
    ensures |r| == length
    ensures forall i | 0 <= i < length :: r[i] == if i < |s| then s[i] else fill
  {
    if length <= |s| then s[..length] else s + seq(length - |s|, i => fill)
  }

  method CxxStringReplaceRange(mem: Mem64, o: int, position: nat, count: nat, replacement: seq<Byte>, ghost s0: seq<Byte>)
      returns (ok: bool)
    modifies mem
    ensures old(Live(mem.State(), o, s0)) ==>
      Refines(old(mem.State()), mem.State(), o, Some(Spliced(s0, position, count, replacement)), ok)
  {
    hide Live, Effect, StringBytes;
    ghost var m := mem.State();
    if Live(m, o, s0) { ReadsBack(m, o, s0); }
    var bytes := OrEmpty(StringBytes(mem.State(), o));
    var p := Min(position, |bytes|);
    var end := p + Min(count, |bytes| - p);
    var newLength := p + |replacement| + (|bytes| - end);
    if newLength > MAX_CSTRING {
      WriteRefused(m, o, Spliced(bytes, position, count, replacement));
      return false;
    }
    ok := CxxStringWrite(mem, o, bytes[..p] + replacement + bytes[end..], s0);
  }

  method CxxStringAssign(mem: Mem64, o: int, p: int, length: Option<nat>, ghost s0: seq<Byte>) returns (ok: bool)
    modifies mem
    ensures old(Live(mem.State(), o, s0)) ==>
      Refines(old(mem.State()), mem.State(), o, Source(old(mem.State()), p, length), ok)
  {
    hide Live, Effect, Source;
    var bytes := CxxStringSource(mem, p, length);
    if bytes.None? { return false; }
    ok := CxxStringWrite(mem, o, bytes.value, s0);
  }

  method CxxStringAppend(mem: Mem64, o: int, p: int, length: Option<nat>, ghost s0: seq<Byte>) returns (ok: bool)
    modifies mem
    ensures old(Live(mem.State(), o, s0)) ==>
      Refines(old(mem.State()), mem.State(), o, Prepend(s0, Source(old(mem.State()), p, length)), ok)
  {
    hide Live, Effect, Source, StringBytes;
    ghost var m := mem.State();
    if Live(m, o, s0) { ReadsBack(m, o, s0); }
    var bytes := OrEmpty(StringBytes(mem.State(), o));
    var more := CxxStringSource(mem, p, length);
    if more.None? { return false; }
    ok := CxxStringWrite(mem, o, bytes + more.value, s0);
  }

  method CxxStringPushByte(mem: Mem64, o: int, byte: Byte, ghost s0: seq<Byte>) returns (ok: bool)
    modifies mem
    ensures old(Live(mem.State(), o, s0)) ==> Refines(old(mem.State()), mem.State(), o, Some(s0 + [byte]), ok)
  {
    hide Live, Effect, StringBytes;
    ghost var m := mem.State();
    if Live(m, o, s0) { ReadsBack(m, o, s0); }
    var bytes := OrEmpty(StringBytes(mem.State(), o));
    ok := CxxStringWrite(mem, o, bytes + [byte], s0);
  }

  method CxxStringInsert(mem: Mem64, o: int, position: nat, p: int, length: Option<nat>, ghost s0: seq<Byte>) returns (ok: bool)
    modifies mem
    ensures old(Live(mem.State(), o, s0)) ==>
      var source := Source(old(mem.State()), p, length);
      Refines(old(mem.State()), mem.State(), o, if source.None? then None else Some(Spliced(s0, position, 0, source.value)), ok)
  {
    hide Live, Effect, Source, StringBytes;
    ghost var m := mem.State();
    if Live(m, o, s0) { ReadsBack(m, o, s0); }
    var replacement := CxxStringSource(mem, p, length);
    if replacement.None? { return false; }
    var bytes := OrEmpty(StringBytes(mem.State(), o));
    var at := Min(position, |bytes|);
    ok := CxxStringWrite(mem, o, bytes[..at] + replacement.value + bytes[at..], s0);
  }

  method CxxStringResize(mem: Mem64, o: int, length: nat, fill: Byte, ghost s0: seq<Byte>) returns (ok: bool)
    modifies mem
    ensures old(Live(mem.State(), o, s0)) ==> Refines(old(mem.State()), mem.State(), o, Some(Resized(s0, length, fill)), ok)
  {
    hide Live, Effect, StringBytes;
    ghost var m := mem.State();
    if Live(m, o, s0) { ReadsBack(m, o, s0); }
    if length > MAX_CSTRING {
      WriteRefused(m, o, Resized(s0, length, fill));
      return false;
    }
    var bytes := OrEmpty(StringBytes(mem.State(), o));
    ok := CxxStringWrite(mem, o, Resized(bytes, length, fill), s0);
  }
}
