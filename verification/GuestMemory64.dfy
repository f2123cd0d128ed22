/** 64-bit guest memory as its users see it: bytes at the mapped addresses, and a heap whose
    allocations are mapped where nothing was before and unmapped again when freed. */
module GuestMemory64 {

  datatype Option<T> = None | Some(value: T)

  type Byte = b: int | 0 <= b < 256
  type Bytes = map<int, Byte>

  const MAX_ALLOCATION := 0x2000_0000
  const U64_MAX := 0xFFFF_FFFF_FFFF_FFFF
  const LOWEST_ALLOCATION := 0x1_0000_0000

  /** `next` is where the search for room begins. */
  datatype Memory = Memory(bytes: Bytes, allocs: map<int, nat>, next: nat)

  predicate Mapped(b: Bytes, a: int, n: nat) { forall k | a <= k < a + n :: k in b }

  predicate Unmapped(b: Bytes, a: int, n: nat) { forall k | a <= k < a + n :: k !in b }

  /** n bytes from an address on. */
  function Get(b: Bytes, a: int, n: nat): (s: seq<Byte>)
    requires Mapped(b, a, n)
    ensures |s| == n && forall i | 0 <= i < n :: s[i] == b[a + i]
  {
    seq(n, i requires 0 <= i < n => b[a + i])
  }

  /** The bytes overwritten from an address on, as far as they are mapped. */
  function Put(b: Bytes, a: int, s: seq<Byte>): (r: Bytes)
    ensures r.Keys == b.Keys
    ensures forall k | k in b :: r[k] == if a <= k < a + |s| then s[k - a] else b[k]
  {
    map k | k in b :: if a <= k < a + |s| then s[k - a] else b[k]
  }

  function MappedPrefix(b: Bytes, a: int, n: nat): (p: nat)
    ensures p <= n && Mapped(b, a, p) && (p < n ==> a + p !in b)
    decreases n
  {
    if n == 0 || a !in b then 0 else 1 + MappedPrefix(b, a + 1, n - 1)
  }

  /** A write stops at the first unmapped byte. */
  function Written(b: Bytes, a: int, s: seq<Byte>): Bytes { Put(b, a, s[..MappedPrefix(b, a, |s|)]) }

  lemma WrittenMapped(b: Bytes, a: int, s: seq<Byte>)
    requires Mapped(b, a, |s|)
    ensures Written(b, a, s) == Put(b, a, s)
  {
    var p := MappedPrefix(b, a, |s|);
    assert p < |s| ==> a + p in b;
    assert s[..|s|] == s;
  }

  lemma PutKeepsMapped(b: Bytes, a: int, s: seq<Byte>, c: int, n: nat)
    ensures Mapped(Put(b, a, s), c, n) <==> Mapped(b, c, n)
  {
    assert Put(b, a, s).Keys == b.Keys;
    assert forall k | k in b :: k in Put(b, a, s);
    assert forall k | k in Put(b, a, s) :: k in b;
  }

  lemma GetPutSame(b: Bytes, a: int, s: seq<Byte>)
    requires Mapped(b, a, |s|)
    ensures Mapped(Put(b, a, s), a, |s|) && Get(Put(b, a, s), a, |s|) == s
  {
    PutKeepsMapped(b, a, s, a, |s|);
  }

  lemma GetPutOther(b: Bytes, a: int, s: seq<Byte>, c: int, n: nat)
    requires Mapped(b, c, n) && (c + n <= a || a + |s| <= c)
    ensures Mapped(Put(b, a, s), c, n) && Get(Put(b, a, s), c, n) == Get(b, c, n)
  {
    PutKeepsMapped(b, a, s, c, n);
  }

  /** Writes next to each other are one write. */
  lemma PutPut(b: Bytes, a: int, s: seq<Byte>, t: seq<Byte>)
    ensures Put(Put(b, a, s), a + |s|, t) == Put(b, a, s + t)
  {}

  lemma GetPart(b: Bytes, a: int, n: nat, i: nat, m: nat)
    requires Mapped(b, a, n) && i + m <= n
    ensures Mapped(b, a + i, m) && Get(b, a + i, m) == Get(b, a, n)[i..i + m]
  {}

  // ---- Little-endian words ----

  function ToLe(v: nat, n: nat): (s: seq<Byte>)
    ensures |s| == n
  {
    if n == 0 then [] else [v % 256] + ToLe(v / 256, n - 1)
  }

  function FromLe(s: seq<Byte>): nat { if s == [] then 0 else s[0] + 256 * FromLe(s[1..]) }

  function Power256(n: nat): nat { if n == 0 then 1 else 256 * Power256(n - 1) }

  lemma {:induction false} LeRoundTrip(v: nat, n: nat)
    requires v < Power256(n)
    ensures FromLe(ToLe(v, n)) == v
    decreases n
  {
    if n > 0 {
      LeRoundTrip(v / 256, n - 1);
      assert ToLe(v, n)[1..] == ToLe(v / 256, n - 1);
    }
  }

  lemma WordRoundTrip(v: nat)
    requires v <= U64_MAX
    ensures FromLe(ToLe(v, 8)) == v
  {
    assert Power256(8) == 0x1_0000_0000_0000_0000;
    LeRoundTrip(v, 8);
  }

  /** The last byte of a word is its top byte. */
  lemma TopByte(s: seq<Byte>)
    requires |s| == 8
    ensures FromLe(s) / 0x100_0000_0000_0000 == s[7] && FromLe(s) <= U64_MAX
    ensures FromLe(s) >= 0x8000_0000_0000_0000 <==> s[7] >= 128
  {
    assert FromLe(s[7..]) == s[7];
    assert forall i | 0 <= i < 7 :: s[i..][1..] == s[i + 1..];
    assert FromLe(s[6..]) == s[6] + 256 * FromLe(s[7..]);
    assert FromLe(s[5..]) == s[5] + 256 * FromLe(s[6..]);
    assert FromLe(s[4..]) == s[4] + 256 * FromLe(s[5..]);
    assert FromLe(s[3..]) == s[3] + 256 * FromLe(s[4..]);
    assert FromLe(s[2..]) == s[2] + 256 * FromLe(s[3..]);
    assert FromLe(s[1..]) == s[1] + 256 * FromLe(s[2..]);
    assert s[0..] == s;
  }

  function Word(b: Bytes, a: int): nat
    requires Mapped(b, a, 8)
  {
    FromLe(Get(b, a, 8))
  }

  function WordOr0(b: Bytes, a: int): nat { if Mapped(b, a, 8) then Word(b, a) else 0 }

  // ---- Strings and arrays of words ----

  /** The bytes at an address, followed by a terminator. */
  predicate Holds(b: Bytes, a: int, s: seq<Byte>) {
    Mapped(b, a, |s| + 1) && Get(b, a, |s| + 1) == s + [0]
  }

  /** The bytes up to a terminator before the limit. */
  function CString(b: Bytes, p: int, limit: nat): (r: Option<seq<Byte>>)
    ensures r.Some? ==> |r.value| < limit && Holds(b, p, r.value) && 0 !in r.value
    decreases limit
  {
    if limit == 0 || p !in b then None
    else if b[p] == 0 then Some([])
    else
      var rest := CString(b, p + 1, limit - 1);
      if rest.None? then None
      else
        HoldsMore(b, p, rest.value);
        Some([b[p]] + rest.value)
  }

  lemma HoldsMore(b: Bytes, p: int, s: seq<Byte>)
    requires p in b && Holds(b, p + 1, s)
    ensures Holds(b, p, [b[p]] + s)
  {
    var t := [b[p]] + s;
    assert Mapped(b, p, |t| + 1);
    forall i | 0 <= i < |t| + 1 ensures Get(b, p, |t| + 1)[i] == (t + [0])[i] {
      if i > 0 { assert Get(b, p + 1, |s| + 1)[i - 1] == (s + [0])[i - 1]; }
    }
  }

  lemma {:induction false} CStringReads(b: Bytes, p: int, s: seq<Byte>, limit: nat)
    requires Holds(b, p, s) && 0 !in s && |s| < limit
    ensures CString(b, p, limit) == Some(s)
    decreases |s|
  {
    var all := Get(b, p, |s| + 1);
    assert all[0] == b[p] == (s + [0])[0];
    if s != [] {
      assert s[0] in s;
      HoldsRest(b, p, s);
      CStringReads(b, p + 1, s[1..], limit - 1);
      assert s == [s[0]] + s[1..];
    }
  }

  lemma HoldsRest(b: Bytes, p: int, s: seq<Byte>)
    requires Holds(b, p, s) && s != []
    ensures Holds(b, p + 1, s[1..])
  {
    GetPart(b, p, |s| + 1, 1, |s|);
    assert (s + [0])[1..1 + |s|] == s[1..] + [0];
  }

  /** Words one after the other. */
  predicate Words(b: Bytes, p: int, xs: seq<nat>) {
    forall i | 0 <= i < |xs| :: Mapped(b, p + 8 * i, 8) && Word(b, p + 8 * i) == xs[i]
  }

  /** Ranges where both memories agree. */
  predicate SameRange(b: Bytes, b': Bytes, a: int, n: nat) { forall k | a <= k < a + n :: k in b && k in b' && b'[k] == b[k] }

  lemma SameWords(b: Bytes, b': Bytes, p: int, xs: seq<nat>)
    requires Words(b, p, xs) && SameRange(b, b', p, 8 * |xs|)
    ensures Words(b', p, xs)
  {
    forall i | 0 <= i < |xs| ensures Mapped(b', p + 8 * i, 8) && Word(b', p + 8 * i) == xs[i] {
      assert Mapped(b, p + 8 * i, 8);
      assert Get(b', p + 8 * i, 8) == Get(b, p + 8 * i, 8);
    }
  }

  lemma WordWritten(b: Bytes, at: int, x: nat)
    requires Mapped(b, at, 8) && x <= U64_MAX
    ensures var b' := Put(b, at, ToLe(x, 8)); Mapped(b', at, 8) && Word(b', at) == x
  {
    GetPutSame(b, at, ToLe(x, 8));
    WordRoundTrip(x);
  }

  lemma WordKept(b: Bytes, at: int, w: seq<Byte>, c: int)
    requires Mapped(b, c, 8) && (c + 8 <= at || at + |w| <= c)
    ensures Mapped(Put(b, at, w), c, 8) && Word(Put(b, at, w), c) == Word(b, c)
  {
    GetPutOther(b, at, w, c, 8);
  }

  lemma WordMapped(b: Bytes, p: int, xs: seq<nat>, i: nat)
    requires Words(b, p, xs) && i < |xs|
    ensures Mapped(b, p + 8 * i, 8)
  {}

  // ---- The heap ----

  /** Allocations are mapped, and apart from each other. */
  ghost predicate HeapOk(m: Memory) {
    && (forall a | a in m.allocs :: AllocationOk(m, a))
    && (forall a, c | a in m.allocs && c in m.allocs && a < c :: a + m.allocs[a] <= c)
  }

  predicate AllocationOk(m: Memory, a: int)
    requires a in m.allocs
  {
    0 < a && 16 <= m.allocs[a] && a + m.allocs[a] <= U64_MAX && Mapped(m.bytes, a, m.allocs[a])
  }

  function Rounded(size: nat): (r: nat)
    ensures r >= size && r >= 16 && r % 16 == 0
  {
    ((if size < 16 then 16 else size) + 15) / 16 * 16
  }

  predicate InRange(k: int, a: int, n: nat) { a <= k < a + n }

  function Zeros(a: int, n: nat): (z: Bytes)
    ensures forall k :: k in z <==> a <= k < a + n
    ensures forall k | k in z :: z[k] == 0
  {
    map k: int | a <= k < a + n && InRange(k, a, n) :: 0
  }

  /** A range of fresh, zeroed memory. */
  function Allocated(m: Memory, a: nat, n: nat): Memory {
    Memory(m.bytes + Zeros(a, n), m.allocs[a := n], a + n)
  }

  // ---- Where an allocation goes ----

  function SearchStart(m: Memory): nat { if m.next > LOWEST_ALLOCATION then m.next else LOWEST_ALLOCATION }

  /** Room for n bytes: at the start of the search, or at a multiple of 16 after it. */
  predicate FitsAt(m: Memory, n: nat, base: nat) {
    && base >= SearchStart(m) && (base == SearchStart(m) || base % 16 == 0)
    && base + n <= U64_MAX && Unmapped(m.bytes, base, n)
  }

  ghost predicate IsFirstFit(m: Memory, n: nat, base: nat) {
    FitsAt(m, n, base) && forall c: nat | FitsAt(m, n, c) :: base <= c
  }

  /** An allocation of the size succeeds. */
  ghost predicate CanAllocate(m: Memory, size: nat) {
    size <= MAX_ALLOCATION && exists base: nat :: FitsAt(m, Rounded(size), base)
  }

  /** Two allocations of the size succeed, one after the other. */
  ghost predicate CanAllocateTwo(m: Memory, size: nat) {
    exists a: nat :: CanAllocate(m, size) && IsFirstFit(m, Rounded(size), a) && CanAllocate(Allocated(m, a, Rounded(size)), size)
  }

  lemma FirstFitIsOne(m: Memory, n: nat, a: nat, c: nat)
    requires IsFirstFit(m, n, a) && IsFirstFit(m, n, c)
    ensures a == c
  {}

  /** Nothing below the start of the search is used again: without a single byte mapped, an allocation
      fails once the cursor is near the end. */
  lemma SearchNeverGoesBack(m: Memory)
    requires m == Memory(map[], map[], U64_MAX - 15)
    ensures HeapOk(m) && !CanAllocate(m, 1) && Unmapped(m.bytes, LOWEST_ALLOCATION, 16)
  {
    forall base: nat ensures !FitsAt(m, Rounded(1), base) {}
  }

  function AlignUp(a: nat): (r: nat)
    ensures a <= r < a + 16 && r % 16 == 0
  {
    (a + 15) / 16 * 16
  }

  /** The last mapped address of a range. */
  function LastMapped(b: Bytes, a: nat, n: nat): (k: Option<nat>)
    ensures k.Some? ==> a <= k.value < a + n && k.value in b
    ensures k.None? <==> Unmapped(b, a, n)
    decreases n
  {
    if n == 0 then None else if a + n - 1 in b then Some(a + n - 1) else LastMapped(b, a, n - 1)
  }

  /** With k in the way, no base up to k has room; the next one to try is the first multiple of 16
      after k. */
  lemma SkipMapped(m: Memory, n: nat, base: nat, k: nat)
    requires base >= SearchStart(m) && base <= k < base + n && k in m.bytes
    requires forall c: nat | FitsAt(m, n, c) :: base <= c
    ensures forall c: nat | FitsAt(m, n, c) :: AlignUp(k + 1) <= c
  {
    forall c: nat | FitsAt(m, n, c) ensures AlignUp(k + 1) <= c {
      assert base <= c && (c <= k ==> c <= k < c + n);
    }
  }

  function Freed(m: Memory, a: int): Memory {
    if a !in m.allocs then m
    else m.(bytes := map k | k in m.bytes && !(a <= k < a + m.allocs[a]) :: m.bytes[k], allocs := m.allocs - {a})
  }

  lemma AllocatedOk(m: Memory, a: nat, n: nat)
    requires HeapOk(m) && 0 < a && 16 <= n && a + n <= U64_MAX && Unmapped(m.bytes, a, n)
    ensures HeapOk(Allocated(m, a, n)) && a !in m.allocs
  {
    var m' := Allocated(m, a, n);
    assert a in m.allocs ==> a in m.bytes;
    assert Mapped(m'.bytes, a, n);
    forall c | c in m.allocs ensures AllocationOk(m', c) && (a < c ==> a + n <= c) && (c < a ==> c + m.allocs[c] <= a) {
      assert AllocationOk(m, c);
      assert c in m.bytes;
      assert c < a < c + m.allocs[c] ==> a in m.bytes;
    }
  }

  lemma FreedOk(m: Memory, a: int)
    requires HeapOk(m)
    ensures HeapOk(Freed(m, a))
  {
    if a in m.allocs {
      var m' := Freed(m, a);
      forall c | c in m'.allocs ensures AllocationOk(m', c) {
        assert AllocationOk(m, c) && AllocationOk(m, a);
        forall k | c <= k < c + m.allocs[c] ensures k in m'.bytes { assert k in m.bytes; }
      }
    }
  }

  lemma PutHeapOk(m: Memory, b: Bytes)
    requires HeapOk(m) && b.Keys == m.bytes.Keys
    ensures HeapOk(m.(bytes := b))
  {
    forall a | a in m.allocs ensures AllocationOk(m.(bytes := b), a) {
      assert AllocationOk(m, a);
      forall k | a <= k < a + m.allocs[a] ensures k in b {
        assert k in m.bytes.Keys;
      }
    }
  }

  lemma PutWord(b: Bytes, o: int, w: seq<Byte>, i: nat, v: nat)
    requires Mapped(b, o, |w|) && i + 8 <= |w| && w[i..i + 8] == ToLe(v, 8) && v <= U64_MAX
    ensures WordOr0(Put(b, o, w), o + i) == v
  {
    hide ToLe;
    GetPutSame(b, o, w);
    GetPart(Put(b, o, w), o, |w|, i, 8);
    WordRoundTrip(v);
  }

  lemma SameWord(b: Bytes, b': Bytes, a: int)
    requires forall k | a <= k < a + 8 :: k in b && k in b' && b'[k] == b[k]
    ensures WordOr0(b, a) == WordOr0(b', a)
  {
    assert Get(b, a, 8) == Get(b', a, 8);
  }

  lemma FreshIsNew(m: Memory, p: nat, size: nat)
    requires HeapOk(m) && Unmapped(m.bytes, p, size) && size > 0
    ensures p !in m.allocs && p !in m.bytes
  {
    assert p in m.allocs ==> AllocationOk(m, p) && p in m.bytes;
  }

  lemma AllocatedKeys(m: Memory, m2: Memory, p: nat, size: nat)
    requires m2.bytes.Keys == Allocated(m, p, size).bytes.Keys
    ensures forall k :: k in m2.bytes <==> k in m.bytes || p <= k < p + size
  {
    assert forall k :: k in m2.bytes <==> k in m2.bytes.Keys;
  }

  class Mem64 {
    var bytes: Bytes
    var allocs: map<int, nat>
    var nextAllocation: nat

    function State(): Memory
      reads this
    {
      Memory(bytes, allocs, nextAllocation)
    }

    function ReadBytes(a: int, n: nat): (r: Option<seq<Byte>>)
      reads this
    {
      if Mapped(bytes, a, n) then Some(Get(bytes, a, n)) else None
    }

    function ReadU64(a: int): (r: Option<nat>)
      reads this
    {
      if Mapped(bytes, a, 8) then Some(Word(bytes, a)) else None
    }

    /** A write that meets unmapped memory fails, after writing what comes before it. */
    method WriteBytes(a: int, s: seq<Byte>) returns (ok: bool)
      modifies this`bytes
      ensures bytes == Written(old(bytes), a, s) && ok == Mapped(old(bytes), a, |s|)
      ensures ok ==> bytes == Put(old(bytes), a, s)
    {
      if Mapped(bytes, a, |s|) { WrittenMapped(bytes, a, s); }
      var n := MappedPrefix(bytes, a, |s|);
      ok := n == |s|;
      if !ok { assert a + n !in bytes; }
      bytes := Put(bytes, a, s[..n]);
    }

    method WriteU64(a: int, v: nat) returns (ok: bool)
      modifies this`bytes
      ensures bytes == Written(old(bytes), a, ToLe(v, 8)) && ok == Mapped(old(bytes), a, 8)
      ensures ok ==> bytes == Put(old(bytes), a, ToLe(v, 8))
    {
      ok := WriteBytes(a, ToLe(v, 8));
    }

    /** Maps a zeroed range, unless something is mapped there. */
    method MapZeroed(base: nat, size: nat) returns (ok: bool)
      modifies this`bytes
      ensures ok == (base + size <= U64_MAX && Unmapped(old(bytes), base, size))
      ensures bytes == if ok then old(bytes) + Zeros(base, size) else old(bytes)
    {
      ok := base + size <= U64_MAX && Unmapped(bytes, base, size);
      if ok { bytes := bytes + Zeros(base, size); }
    }

    /** Zeroed memory at the first place that has room; fails exactly for sizes over the limit and
        when there is no such place. */
    method AllocZeroed(size: nat) returns (a: Option<nat>)
      modifies this`bytes, this`allocs, this`nextAllocation
      ensures a.Some? <==> CanAllocate(old(State()), size)
      ensures a.None? ==> State() == old(State())
      ensures a.Some? ==> size <= MAX_ALLOCATION && 0 < a.value && a.value + Rounded(size) <= U64_MAX
      ensures a.Some? ==> IsFirstFit(old(State()), Rounded(size), a.value) && Unmapped(old(bytes), a.value, Rounded(size))
      ensures a.Some? ==> State() == Allocated(old(State()), a.value, Rounded(size))
    {
      if size > MAX_ALLOCATION { return None; }
      var base := SearchStart(State());
      var n := Rounded(size);
      while base + n <= U64_MAX
        invariant State() == old(State()) && base >= SearchStart(State()) && (base == SearchStart(State()) || base % 16 == 0)
        invariant forall c: nat | FitsAt(State(), n, c) :: base <= c
      {
        var k := LastMapped(bytes, base, n);
        if k.None? {
          assert FitsAt(State(), n, base);
          var m := Allocated(State(), base, n);
          bytes, allocs, nextAllocation := m.bytes, m.allocs, m.next;
          return Some(base);
        }
        SkipMapped(State(), n, base, k.value);
        base := AlignUp(k.value + 1);
      }
      return None;
    }

    /** Releases an allocation; anything else is left alone. */
    method Free(a: int) returns (ok: bool)
      modifies this`bytes, this`allocs
      ensures State() == Freed(old(State()), a) && ok == (a in old(allocs))
    {
      ok := a in allocs;
      var m := Freed(State(), a);
      bytes, allocs := m.bytes, m.allocs;
    }
  }
}
