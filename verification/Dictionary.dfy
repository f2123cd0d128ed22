/** The dictionary of the Objective-C runtime: two parallel arrays of words in guest memory,
    searched from the front, the search stopping after 4096 entries. */
module Dictionary {
  import opened GuestMemory64

  const MAX_SCAN := 4096
  const OBJECT_SIZE := 96
  const COUNT := 56
  const KEYS := 64
  const VALUES := 72

  // ---- Dictionaries as sequences ----

  function Min(a: nat, b: nat): nat { if a < b then a else b }

  /** The first of n places where the key is, or n. */
  function IndexOf(keys: seq<nat>, key: nat, n: nat): (i: nat)
    requires n <= |keys|
    ensures i <= n && (i < n ==> keys[i] == key) && forall j | 0 <= j < i :: keys[j] != key
  {
    if n == 0 then 0 else
      var i := IndexOf(keys, key, n - 1);
      if i < n - 1 || keys[n - 1] == key then i else n
  }

  function Scanned(keys: seq<nat>): nat { Min(|keys|, MAX_SCAN) }

  predicate Found(keys: seq<nat>, key: nat) { IndexOf(keys, key, Scanned(keys)) < Scanned(keys) }

  function Lookup(keys: seq<nat>, values: seq<nat>, key: nat): nat
    requires |keys| == |values|
  {
    if Found(keys, key) then values[IndexOf(keys, key, Scanned(keys))] else 0
  }

  function NewKeys(keys: seq<nat>, key: nat): seq<nat> { if Found(keys, key) then keys else keys + [key] }

  function NewValues(keys: seq<nat>, values: seq<nat>, key: nat, value: nat): (r: seq<nat>)
    requires |keys| == |values|
    ensures |r| == |NewKeys(keys, key)|
  {
    if Found(keys, key) then values[IndexOf(keys, key, Scanned(keys)) := value] else values + [value]
  }

  predicate Distinct(keys: seq<nat>) { forall i, j | 0 <= i < j < |keys| :: keys[i] != keys[j] }

  lemma IndexUnique(keys: seq<nat>, key: nat, n: nat, i: nat)
    requires i < n <= |keys| && keys[i] == key && forall j | 0 <= j < i :: keys[j] != key
    ensures IndexOf(keys, key, n) == i
  {}

  lemma {:induction false} IndexInPrefix(keys: seq<nat>, more: seq<nat>, key: nat, n: nat)
    requires n <= |keys|
    ensures IndexOf(keys + more, key, n) == IndexOf(keys, key, n)
    decreases n
  {
    if n > 0 { IndexInPrefix(keys, more, key, n - 1); }
  }

  /** What was set is what is read, exactly if the key was found before, or there was room within
      the part that is searched, or the value is the one that missing keys have. */
  lemma SetThenGet(keys: seq<nat>, values: seq<nat>, key: nat, value: nat)
    requires |keys| == |values|
    ensures Lookup(NewKeys(keys, key), NewValues(keys, values, key, value), key) == value
      <==> Found(keys, key) || |keys| < MAX_SCAN || value == 0
  {
    if !Found(keys, key) {
      IndexInPrefix(keys, [key], key, Scanned(keys));
      if |keys| < MAX_SCAN { IndexUnique(keys + [key], key, |keys| + 1, |keys|); }
    }
  }

  /** With the keys from 1 to 4096, key 0 set to 7 reads as 0, and setting it again appends it again. */
  lemma FullDictionaryForgets()
    ensures var keys, values := seq<nat>(MAX_SCAN, i => i + 1), seq<nat>(MAX_SCAN, i => 0);
      && Distinct(keys) && Lookup(NewKeys(keys, 0), NewValues(keys, values, 0, 7), 0) == 0
      && NewKeys(NewKeys(keys, 0), 0) == keys + [0] + [0]
  {
    var keys := seq<nat>(MAX_SCAN, i => i + 1);
    NotAmong(keys, 0, MAX_SCAN);
    IndexInPrefix(keys, [0], 0, MAX_SCAN);
  }

  lemma {:induction false} NotAmong(keys: seq<nat>, key: nat, n: nat)
    requires n <= |keys| && forall i | 0 <= i < n :: keys[i] != key
    ensures IndexOf(keys, key, n) == n
  {
    if n > 0 { NotAmong(keys, key, n - 1); }
  }

  /** Other keys are never disturbed. */
  lemma OthersUnchanged(keys: seq<nat>, values: seq<nat>, key: nat, value: nat, other: nat)
    requires |keys| == |values| && other != key
    ensures Lookup(NewKeys(keys, key), NewValues(keys, values, key, value), other) == Lookup(keys, values, other)
  {
    if !Found(keys, key) {
      var n := Scanned(keys);
      IndexInPrefix(keys, [key], other, n);
      var i := IndexOf(keys, other, n);
      if i < n { IndexUnique(keys + [key], other, Scanned(keys + [key]), i); }
    }
  }

  /** Up to 4096 entries keys stay distinct, and the count grows exactly for a new key. */
  lemma KeysStayDistinct(keys: seq<nat>, key: nat)
    requires Distinct(keys) && |keys| <= MAX_SCAN
    ensures Distinct(NewKeys(keys, key))
    ensures |NewKeys(keys, key)| == |keys| + (if key in keys then 0 else 1)
  {}

  function AsMap(keys: seq<nat>, values: seq<nat>): map<nat, nat>
    requires |keys| == |values|
  {
    if keys == [] then map[]
    else AsMap(keys[..|keys| - 1], values[..|values| - 1])[keys[|keys| - 1] := values[|values| - 1]]
  }

  lemma {:induction false} AsMapMeaning(keys: seq<nat>, values: seq<nat>)
    requires |keys| == |values| && Distinct(keys)
    ensures forall k :: k in AsMap(keys, values) <==> k in keys
    ensures forall i | 0 <= i < |keys| :: AsMap(keys, values)[keys[i]] == values[i]
    decreases |keys|
  {
    if keys != [] {
      var n := |keys| - 1;
      AsMapMeaning(keys[..n], values[..n]);
      assert keys == keys[..n] + [keys[n]];
      forall i | 0 <= i < n ensures AsMap(keys, values)[keys[i]] == values[i] { assert keys[..n][i] == keys[i]; }
    }
  }

  lemma LookupIsMap(keys: seq<nat>, values: seq<nat>, key: nat)
    requires |keys| == |values| <= MAX_SCAN && Distinct(keys)
    ensures Lookup(keys, values, key) == if key in AsMap(keys, values) then AsMap(keys, values)[key] else 0
  {
    AsMapMeaning(keys, values);
    var i := IndexOf(keys, key, |keys|);
    if key in keys {
      var j :| 0 <= j < |keys| && keys[j] == key;
    }
  }

  /** Setting is a map update. */
  lemma SetIsMapUpdate(keys: seq<nat>, values: seq<nat>, key: nat, value: nat)
    requires |keys| == |values| <= MAX_SCAN && Distinct(keys)
    ensures AsMap(NewKeys(keys, key), NewValues(keys, values, key, value)) == AsMap(keys, values)[key := value]
  {
    AsMapMeaning(keys, values);
    if Found(keys, key) {
      var v := NewValues(keys, values, key, value);
      AsMapMeaning(keys, v);
      var m, m' := AsMap(keys, values), AsMap(keys, v);
      forall k | k in m' ensures k in m[key := value] && m'[k] == m[key := value][k] {
        var i :| 0 <= i < |keys| && keys[i] == k;
      }
    } else {
      assert (keys + [key])[..|keys|] == keys && (values + [value])[..|values|] == values;
    }
  }

  /** A list of settings, from an empty dictionary. */
  function KeysAfter(ops: seq<(nat, nat)>): seq<nat> {
    if ops == [] then [] else NewKeys(KeysAfter(ops[..|ops| - 1]), ops[|ops| - 1].0)
  }

  function ValuesAfter(ops: seq<(nat, nat)>): (r: seq<nat>)
    ensures |r| == |KeysAfter(ops)|
  {
    if ops == [] then [] else
      var init, op := ops[..|ops| - 1], ops[|ops| - 1];
      NewValues(KeysAfter(init), ValuesAfter(init), op.0, op.1)
  }

  function MapAfter(ops: seq<(nat, nat)>): map<nat, nat> {
    if ops == [] then map[] else MapAfter(ops[..|ops| - 1])[ops[|ops| - 1].0 := ops[|ops| - 1].1]
  }

  /** As long as there are at most 4096 entries, the dictionary is a finite map. */
  lemma {:induction false} DictionaryIsMap(ops: seq<(nat, nat)>, key: nat)
    requires |KeysAfter(ops)| <= MAX_SCAN
    ensures Distinct(KeysAfter(ops)) && AsMap(KeysAfter(ops), ValuesAfter(ops)) == MapAfter(ops)
    ensures Lookup(KeysAfter(ops), ValuesAfter(ops), key) == if key in MapAfter(ops) then MapAfter(ops)[key] else 0
    decreases |ops|
  {
    if ops != [] {
      var init, op := ops[..|ops| - 1], ops[|ops| - 1];
      DictionaryIsMap(init, key);
      KeysStayDistinct(KeysAfter(init), op.0);
      SetIsMapUpdate(KeysAfter(init), ValuesAfter(init), op.0, op.1);
    }
    LookupIsMap(KeysAfter(ops), ValuesAfter(ops), key);
  }

  // ---- Dictionaries in memory ----

  /** An array is its own allocation; there need be none for no elements. */
  predicate ArrayOk(m: Memory, p: int, xs: seq<nat>) {
    xs != [] ==> p in m.allocs && 8 * |xs| <= m.allocs[p] && Words(m.bytes, p, xs)
  }

  /** A field of an object; 0 for anything that is not an allocation. */
  function Field(m: Memory, o: int, offset: nat): nat {
    if o == 0 || o !in m.allocs then 0 else WordOr0(m.bytes, o + offset)
  }

  ghost predicate DictOk(m: Memory, d: int, keys: seq<nat>, values: seq<nat>) {
    && HeapOk(m) && d in m.allocs && OBJECT_SIZE <= m.allocs[d]
    && |keys| == |values| == Field(m, d, COUNT)
    && ArrayOk(m, Field(m, d, KEYS), keys) && ArrayOk(m, Field(m, d, VALUES), values)
    && (keys != [] ==> Field(m, d, KEYS) != d && Field(m, d, VALUES) != d && Field(m, d, KEYS) != Field(m, d, VALUES))
  }

  /** What lies in guest memory: the count at offset 56, and at 64 and 72 the addresses of the arrays of
      keys and of values. */
  lemma DictionaryLayout(m: Memory, d: int, keys: seq<nat>, values: seq<nat>, i: nat)
    requires DictOk(m, d, keys, values) && i < |keys|
    ensures Mapped(m.bytes, d + 56, 8) && Mapped(m.bytes, d + 64, 8) && Mapped(m.bytes, d + 72, 8)
    ensures FromLe(Get(m.bytes, d + 56, 8)) == |keys| == |values|
    ensures var k := FromLe(Get(m.bytes, d + 64, 8)) + 8 * i; Mapped(m.bytes, k, 8) && FromLe(Get(m.bytes, k, 8)) == keys[i]
    ensures var v := FromLe(Get(m.bytes, d + 72, 8)) + 8 * i; Mapped(m.bytes, v, 8) && FromLe(Get(m.bytes, v, 8)) == values[i]
  {
    assert AllocationOk(m, d);
    WordMapped(m.bytes, Field(m, d, KEYS), keys, i);
    WordMapped(m.bytes, Field(m, d, VALUES), values, i);
  }

  lemma SameField(m: Memory, m': Memory, d: int, offset: nat)
    requires d in m.allocs && d in m'.allocs && SameRange(m.bytes, m'.bytes, d + offset, 8)
    ensures Field(m', d, offset) == Field(m, d, offset)
  {
    SameWord(m.bytes, m'.bytes, d + offset);
  }

  // ---- Reading ----

  method ObjcDictionaryValue(mem: Mem64, d: int, key: nat, ghost keys: seq<nat>, ghost values: seq<nat>) returns (v: nat)
    ensures DictOk(mem.State(), d, keys, values) ==> v == Lookup(keys, values, key)
  {
    var count := Field(mem.State(), d, COUNT);
    var keysAt := Field(mem.State(), d, KEYS);
    var valuesAt := Field(mem.State(), d, VALUES);
    ghost var ok := DictOk(mem.State(), d, keys, values);
    for index := 0 to Min(count, MAX_SCAN)
      invariant ok ==> forall j | 0 <= j < index :: keys[j] != key
    {
      assert ok ==> Mapped(mem.bytes, keysAt + 8 * index, 8) && Word(mem.bytes, keysAt + 8 * index) == keys[index];
      var found := mem.ReadU64(keysAt + 8 * index);
      if found == Some(key) {
        assert ok ==> Mapped(mem.bytes, valuesAt + 8 * index, 8) && Word(mem.bytes, valuesAt + 8 * index) == values[index];
        var value := mem.ReadU64(valuesAt + 8 * index);
        assert ok ==> IndexOf(keys, key, Scanned(keys)) == index;
        return if value.Some? then value.value else 0;
      }
    }
    return 0;
  }

  // ---- Overwriting a value ----

  lemma PutWords(b: Bytes, p: int, xs: seq<nat>, i: nat, x: nat)
    requires Words(b, p, xs) && i < |xs| && x <= U64_MAX
    ensures Words(Put(b, p + 8 * i, ToLe(x, 8)), p, xs[i := x])
  {
    hide ToLe, Put, Word, Mapped;
    var b' := Put(b, p + 8 * i, ToLe(x, 8));
    forall j | 0 <= j < |xs| ensures Mapped(b', p + 8 * j, 8) && Word(b', p + 8 * j) == xs[i := x][j] {
      assert Mapped(b, p + 8 * j, 8);
      if i == j {
        WordWritten(b, p + 8 * i, x);
      } else {
        WordKept(b, p + 8 * i, ToLe(x, 8), p + 8 * j);
      }
    }
  }

  lemma AllocationsApart(m: Memory, a: int, c: int)
    requires HeapOk(m) && a in m.allocs && c in m.allocs && a != c
    ensures a + m.allocs[a] <= c || c + m.allocs[c] <= a
  {}

  /** Bytes written within one allocation leave another one alone. */
  lemma OtherAllocation(m: Memory, a: int, c: int, at: int, w: seq<Byte>)
    requires HeapOk(m) && a in m.allocs && c in m.allocs && a != c
    requires a <= at && at + |w| <= a + m.allocs[a]
    ensures SameRange(m.bytes, Put(m.bytes, at, w), c, m.allocs[c])
  {
    AllocationsApart(m, a, c);
    assert AllocationOk(m, c);
  }

  lemma ValueSet(m: Memory, d: int, keys: seq<nat>, values: seq<nat>, i: nat, value: nat)
    requires DictOk(m, d, keys, values) && i < |keys| && value <= U64_MAX
    ensures var at := Field(m, d, VALUES) + 8 * i;
      Mapped(m.bytes, at, 8) && DictOk(m.(bytes := Put(m.bytes, at, ToLe(value, 8))), d, keys, values[i := value])
  {
    hide ToLe, WordOr0, Words;
    var kp, vp := Field(m, d, KEYS), Field(m, d, VALUES);
    var b := Put(m.bytes, vp + 8 * i, ToLe(value, 8));
    var m' := m.(bytes := b);
    PutWords(m.bytes, vp, values, i, value);
    WordMapped(m.bytes, vp, values, i);
    PutHeapOk(m, b);
    OtherAllocation(m, vp, d, vp + 8 * i, ToLe(value, 8));
    OtherAllocation(m, vp, kp, vp + 8 * i, ToLe(value, 8));
    SameField(m, m', d, COUNT);
    SameField(m, m', d, KEYS);
    SameField(m, m', d, VALUES);
    SameWords(m.bytes, b, kp, keys);
  }

  // ---- Appending an entry ----

  lemma FreshAllocation(m: Memory, a: nat, n: nat, c: int)
    requires HeapOk(m) && Unmapped(m.bytes, a, n) && n > 0 && c in m.allocs
    ensures a != c && SameRange(m.bytes, Allocated(m, a, n).bytes, c, m.allocs[c])
  {
    FreshIsNew(m, a, n);
    assert AllocationOk(m, c);
    forall k | c <= k < c + m.allocs[c] ensures k in m.bytes && !(a <= k < a + n) {}
  }

  /** Allocating leaves a dictionary as it is. */
  lemma AllocationKeeps(m: Memory, d: int, keys: seq<nat>, values: seq<nat>, a: int, n: nat)
    requires DictOk(m, d, keys, values)
    requires 0 < a && 16 <= n && a + n <= U64_MAX && Unmapped(m.bytes, a, n)
    ensures DictOk(Allocated(m, a, n), d, keys, values) && a !in m.allocs
    ensures Field(Allocated(m, a, n), d, KEYS) == Field(m, d, KEYS) && Field(Allocated(m, a, n), d, VALUES) == Field(m, d, VALUES)
  {
    hide WordOr0, Words;
    var m' := Allocated(m, a, n);
    AllocatedOk(m, a, n);
    FreshAllocation(m, a, n, d);
    SameField(m, m', d, COUNT);
    SameField(m, m', d, KEYS);
    SameField(m, m', d, VALUES);
    if keys != [] {
      FreshAllocation(m, a, n, Field(m, d, KEYS));
      FreshAllocation(m, a, n, Field(m, d, VALUES));
      SameWords(m.bytes, m'.bytes, Field(m, d, KEYS), keys);
      SameWords(m.bytes, m'.bytes, Field(m, d, VALUES), values);
    }
  }

  lemma CopiedWord(b: Bytes, p: int, n: nat, q: int, w: seq<Byte>, i: nat)
    requires Mapped(b, p, 8 * n) && Mapped(b, q, |w|) && |w| >= 8 * n && w[..8 * n] == Get(b, p, 8 * n) && i < n
    ensures Mapped(b, p + 8 * i, 8) && Mapped(Put(b, q, w), q + 8 * i, 8)
    ensures Word(Put(b, q, w), q + 8 * i) == Word(b, p + 8 * i)
  {
    hide Put, Get;
    PutKeepsMapped(b, q, w, q, |w|);
    CopiedPart(b, p, 8 * n, q, w, 8 * i, 8);
  }

  lemma CopiedPart(b: Bytes, p: int, n: nat, q: int, w: seq<Byte>, i: nat, m: nat)
    requires Mapped(b, p, n) && Mapped(b, q, |w|) && |w| >= n && w[..n] == Get(b, p, n) && i + m <= n
    ensures Mapped(b, p + i, m) && Mapped(Put(b, q, w), q + i, m)
    ensures Get(Put(b, q, w), q + i, m) == Get(b, p + i, m)
  {
    hide Put, Get;
    GetPutSame(b, q, w);
    GetPart(Put(b, q, w), q, |w|, i, m);
    GetPart(b, p, n, i, m);
    assert w[i..i + m] == w[..n][i..i + m];
  }

  /** The copy of an array, with one more word. */
  lemma CopyWords(b: Bytes, p: int, xs: seq<nat>, q: int, x: nat)
    requires Words(b, p, xs) && Mapped(b, p, 8 * |xs|) && Mapped(b, q, 8 * |xs| + 8) && x <= U64_MAX
    ensures var w := Get(b, p, 8 * |xs|) + ToLe(x, 8); Words(Put(b, q, w), q, xs + [x])
  {
    hide ToLe, Put, Word;
    var n := |xs|;
    var w := Get(b, p, 8 * n) + ToLe(x, 8);
    var b' := Put(b, q, w);
    forall i | 0 <= i < n + 1 ensures Mapped(b', q + 8 * i, 8) && Word(b', q + 8 * i) == (xs + [x])[i] {
      if i < n {
        CopiedWord(b, p, n, q, w, i);
      } else {
        assert w[8 * n..8 * n + 8] == ToLe(x, 8);
        PutKeepsMapped(b, q, w, q + 8 * n, 8);
        PutWord(b, q, w, 8 * n, x);
        WordIsWordOr0(b', q + 8 * n);
      }
    }
  }

  lemma WordIsWordOr0(b: Bytes, a: int)
    requires Mapped(b, a, 8)
    ensures WordOr0(b, a) == Word(b, a)
  {}

  method CopyBytes(mem: Mem64, q: int, p: int, n: nat) returns (ok: bool, ghost w: seq<Byte>)
    modifies mem`bytes
    ensures old(Mapped(mem.bytes, p, n) && Mapped(mem.bytes, q, n)) ==>
      ok && w == old(Get(mem.bytes, p, n)) && mem.bytes == Put(old(mem.bytes), q, w)
  {
    hide Put, Written;
    ok, w := true, [];
    if n > 0 {
      var source := mem.ReadBytes(p, n);
      if source.None? { return false, []; }
      ok := mem.WriteBytes(q, source.value);
      w := source.value;
    } else {
      PutNothing(mem.bytes, q);
    }
  }

  /** Copies `count` words to a new array and appends one. */
  method CopyAppend(mem: Mem64, q: int, p: int, count: nat, x: nat, ghost xs: seq<nat>) returns (ok: bool, ghost w: seq<Byte>)
    requires x <= U64_MAX
    modifies mem`bytes
    ensures old(count == |xs| && Words(mem.bytes, p, xs) && Mapped(mem.bytes, p, 8 * count) && Mapped(mem.bytes, q, 8 * count + 8)) ==>
      ok && |w| == 8 * count + 8 && mem.bytes == Put(old(mem.bytes), q, w) && Words(mem.bytes, q, xs + [x])
  {
    hide ToLe, Put, Written, Words, Get, Mapped;
    ghost var b := mem.bytes;
    ghost var fine := count == |xs| && Words(b, p, xs) && Mapped(b, p, 8 * count) && Mapped(b, q, 8 * count + 8);
    if fine {
      MappedPart(b, q, 8 * count + 8, 0, 8 * count);
      MappedPart(b, q, 8 * count + 8, 8 * count, 8);
    }
    ok, w := CopyBytes(mem, q, p, 8 * count);
    if !ok { return; }
    if fine { PutKeepsMapped(b, q, w, q + 8 * count, 8); }
    ok := mem.WriteU64(q + 8 * count, x);
    if fine {
      PutPut(b, q, w, ToLe(x, 8));
      CopyWords(b, p, xs, q, x);
    }
    w := w + ToLe(x, 8);
  }

  lemma MappedPart(b: Bytes, a: int, n: nat, i: nat, m: nat)
    requires Mapped(b, a, n) && i + m <= n
    ensures Mapped(b, a + i, m)
  {}

  lemma PutNothing(b: Bytes, q: int)
    ensures Put(b, q, []) == b
  {}

  // ---- The fields ----

  function Fields(count: nat, keys: nat, values: nat): (w: seq<Byte>)
    ensures |w| == 24
  {
    ToLe(count, 8) + ToLe(keys, 8) + ToLe(values, 8)
  }

  lemma FieldParts(count: nat, keys: nat, values: nat)
    ensures var w := Fields(count, keys, values);
      w[0..8] == ToLe(count, 8) && w[8..16] == ToLe(keys, 8) && w[16..24] == ToLe(values, 8)
  {
    hide ToLe;
  }

  /** The object made to refer to complete arrays is a dictionary of their contents. */
  lemma Assemble(m: Memory, d: int, kp: nat, vp: nat, keys: seq<nat>, values: seq<nat>)
    requires HeapOk(m) && d in m.allocs && OBJECT_SIZE <= m.allocs[d] && kp in m.allocs && vp in m.allocs
    requires kp != vp && kp != d && vp != d && |keys| == |values| && 8 * |keys| <= m.allocs[kp] && 8 * |values| <= m.allocs[vp]
    requires Words(m.bytes, kp, keys) && Words(m.bytes, vp, values)
    ensures var m' := m.(bytes := Put(m.bytes, d + COUNT, Fields(|keys|, kp, vp)));
      DictOk(m', d, keys, values) && Field(m', d, KEYS) == kp && Field(m', d, VALUES) == vp
  {
    hide Field, Words, Fields, Put;
    var w := Fields(|keys|, kp, vp);
    var b := Put(m.bytes, d + COUNT, w);
    PutHeapOk(m, b);
    assert AllocationOk(m, d) && AllocationOk(m, kp) && AllocationOk(m, vp);
    AssembledFields(m, d, kp, vp, |keys|);
    hide HeapOk, AllocationOk;
    ArrayUnderFields(m, d, w, kp, keys);
    ArrayUnderFields(m, d, w, vp, values);
  }

  lemma AssembledFields(m: Memory, d: int, kp: nat, vp: nat, n: nat)
    requires 0 < d && d in m.allocs && Mapped(m.bytes, d, OBJECT_SIZE) && kp <= U64_MAX && vp <= U64_MAX && n <= U64_MAX
    ensures var m' := m.(bytes := Put(m.bytes, d + COUNT, Fields(n, kp, vp)));
      Field(m', d, COUNT) == n && Field(m', d, KEYS) == kp && Field(m', d, VALUES) == vp
  {
    hide WordOr0, Fields, Put;
    var w := Fields(n, kp, vp);
    FieldParts(n, kp, vp);
    assert Mapped(m.bytes, d + COUNT, 24);
    PutWord(m.bytes, d + COUNT, w, 0, n);
    PutWord(m.bytes, d + COUNT, w, 8, kp);
    PutWord(m.bytes, d + COUNT, w, 16, vp);
  }

  lemma ArrayUnderFields(m: Memory, d: int, w: seq<Byte>, p: int, xs: seq<nat>)
    requires HeapOk(m) && d in m.allocs && OBJECT_SIZE <= m.allocs[d] && |w| == 24
    requires p in m.allocs && p != d && 8 * |xs| <= m.allocs[p] && Words(m.bytes, p, xs)
    ensures Words(Put(m.bytes, d + COUNT, w), p, xs)
  {
    hide Words, Put;
    OtherAllocation(m, d, p, d + COUNT, w);
    SameWords(m.bytes, Put(m.bytes, d + COUNT, w), p, xs);
  }

  method SetObjcField(mem: Mem64, o: int, offset: nat, value: nat)
    modifies mem`bytes
    ensures old(o != 0 && o in mem.allocs && Mapped(mem.bytes, o + offset, 8)) ==>
      mem.bytes == Put(old(mem.bytes), o + offset, ToLe(value, 8))
    ensures mem.bytes.Keys == old(mem.bytes).Keys
  {
    if o != 0 && o in mem.allocs { var ok := mem.WriteU64(o + offset, value); }
  }

  method SetFields(mem: Mem64, d: int, count: nat, keys: nat, values: nat)
    modifies mem`bytes
    ensures old(d != 0 && d in mem.allocs && Mapped(mem.bytes, d, OBJECT_SIZE)) ==>
      mem.bytes == Put(old(mem.bytes), d + COUNT, Fields(count, keys, values))
  {
    hide ToLe, Put;
    ghost var b := mem.bytes;
    SetObjcField(mem, d, COUNT, count);
    PutKeepsMapped(b, d + COUNT, ToLe(count, 8), d, OBJECT_SIZE);
    ghost var b1 := mem.bytes;
    SetObjcField(mem, d, KEYS, keys);
    PutPut(b, d + COUNT, ToLe(count, 8), ToLe(keys, 8));
    PutKeepsMapped(b1, d + KEYS, ToLe(keys, 8), d, OBJECT_SIZE);
    SetObjcField(mem, d, VALUES, values);
    PutPut(b, d + COUNT, ToLe(count, 8) + ToLe(keys, 8), ToLe(values, 8));
  }

  // ---- Setting ----

  /** An array in an allocation of its own, or nothing. */
  predicate ArrayAt(m: Memory, p: int, xs: seq<nat>) {
    && Words(m.bytes, p, xs) && Mapped(m.bytes, p, 8 * |xs|)
    && (xs != [] ==> p in m.allocs && 8 * |xs| <= m.allocs[p])
  }

  /** The new arrays are there; the old ones still hold what they did. */
  ghost predicate Ready(m: Memory, d: int, kp: int, keys: seq<nat>, vp: int, values: seq<nat>, nk: int, nv: int) {
    && HeapOk(m) && d in m.allocs && OBJECT_SIZE <= m.allocs[d] && nk in m.allocs && nv in m.allocs
    && |keys| == |values| && 8 * |keys| + 8 <= m.allocs[nk] && 8 * |keys| + 8 <= m.allocs[nv]
    && nk != nv && nk != d && nv != d && ArrayAt(m, kp, keys) && ArrayAt(m, vp, values)
    && (keys != [] ==> kp != nk && kp != nv && vp != nk && vp != nv)
  }

  lemma DictArrays(m: Memory, d: int, keys: seq<nat>, values: seq<nat>)
    requires DictOk(m, d, keys, values)
    ensures ArrayAt(m, Field(m, d, KEYS), keys) && ArrayAt(m, Field(m, d, VALUES), values)
  {
    if keys != [] { assert AllocationOk(m, Field(m, d, KEYS)) && AllocationOk(m, Field(m, d, VALUES)); }
  }

  lemma ReadyToCopy(m: Memory, d: int, keys: seq<nat>, values: seq<nat>, nk: nat, nv: nat, n: nat)
    requires DictOk(m, d, keys, values) && nk !in m.allocs && nv !in m.allocs && nk != nv && 8 * |keys| + 8 <= n
    requires var m2 := Allocated(Allocated(m, nk, n), nv, n);
      && DictOk(m2, d, keys, values)
      && Field(m2, d, KEYS) == Field(m, d, KEYS) && Field(m2, d, VALUES) == Field(m, d, VALUES)
    ensures Ready(Allocated(Allocated(m, nk, n), nv, n), d, Field(m, d, KEYS), keys, Field(m, d, VALUES), values, nk, nv)
  {
    hide Field, Words;
    DictArrays(Allocated(Allocated(m, nk, n), nv, n), d, keys, values);
  }

  /** Writing to another allocation. */
  lemma ArrayKept(m: Memory, q: int, w: seq<Byte>, p: int, xs: seq<nat>)
    requires HeapOk(m) && q in m.allocs && |w| <= m.allocs[q] && ArrayAt(m, p, xs) && (xs != [] ==> p != q)
    ensures HeapOk(m.(bytes := Put(m.bytes, q, w))) && ArrayAt(m.(bytes := Put(m.bytes, q, w)), p, xs)
  {
    PutHeapOk(m, Put(m.bytes, q, w));
    if xs != [] {
      OtherAllocation(m, q, p, q, w);
      SameWords(m.bytes, Put(m.bytes, q, w), p, xs);
    }
  }

  lemma KeysCopied(m: Memory, d: int, kp: int, keys: seq<nat>, vp: int, values: seq<nat>, nk: int, nv: int, w: seq<Byte>, key: nat)
    requires Ready(m, d, kp, keys, vp, values, nk, nv) && |w| == 8 * |keys| + 8
    requires Words(Put(m.bytes, nk, w), nk, keys + [key])
    ensures var m' := m.(bytes := Put(m.bytes, nk, w));
      HeapOk(m') && ArrayAt(m', vp, values) && ArrayAt(m', nk, keys + [key]) && Mapped(m'.bytes, nv, 8 * |keys| + 8)
  {
    hide Words, Put;
    var m' := m.(bytes := Put(m.bytes, nk, w));
    ArrayKept(m, nk, w, vp, values);
    assert AllocationOk(m', nk) && AllocationOk(m', nv);
  }

  lemma ValuesCopied(m: Memory, d: int, keys: seq<nat>, values: seq<nat>, nk: int, nv: int, w: seq<Byte>)
    requires HeapOk(m) && d in m.allocs && OBJECT_SIZE <= m.allocs[d] && nk in m.allocs && nv in m.allocs
    requires nk != nv && nk != d && nv != d && |keys| == |values| && |w| == 8 * |keys| && |w| <= m.allocs[nv]
    requires ArrayAt(m, nk, keys) && Words(Put(m.bytes, nv, w), nv, values)
    ensures var m' := m.(bytes := Put(m.bytes, nv, w));
      && d > 0 && Mapped(m'.bytes, d, OBJECT_SIZE)
      && var m1 := m'.(bytes := Put(m'.bytes, d + COUNT, Fields(|keys|, nk, nv)));
        |keys| > 0 ==> DictOk(m1, d, keys, values) && Field(m1, d, KEYS) == nk && Field(m1, d, VALUES) == nv
  {
    hide Words, Put, Fields, DictOk, Field;
    var m' := m.(bytes := Put(m.bytes, nv, w));
    ArrayKept(m, nv, w, nk, keys);
    assert AllocationOk(m', d) && AllocationOk(m, nk) && AllocationOk(m, nv);
    if |keys| > 0 { Assemble(m', d, nk, nv, keys, values); }
  }

  /** What was mapped is as it was, but for n bytes. */
  ghost predicate SameOutside(b: Bytes, b': Bytes, at: int, n: nat) {
    forall k | k in b && !(at <= k < at + n) :: k in b' && b'[k] == b[k]
  }

  /** The object refers to exactly two more allocations, and nothing but its fields has changed. */
  ghost predicate Moved(m: Memory, m': Memory, d: int) {
    var kp, vp := Field(m', d, KEYS), Field(m', d, VALUES);
    && kp != vp && kp !in m.allocs && vp !in m.allocs && m'.allocs.Keys == m.allocs.Keys + {kp, vp}
    && SameOutside(m.bytes, m'.bytes, d + COUNT, 24)
  }

  lemma AllocationAdds(m: Memory, a: nat, n: nat)
    requires Unmapped(m.bytes, a, n)
    ensures SameOutside(m.bytes, Allocated(m, a, n).bytes, 0, 0)
  {}

  /** Writing to fresh memory and to the fields. */
  lemma OnlyFieldsChange(b: Bytes, b2: Bytes, d: int, nk: int, nv: int, wk: seq<Byte>, wv: seq<Byte>, f: seq<Byte>)
    requires SameOutside(b, b2, 0, 0) && Unmapped(b, nk, |wk|) && Unmapped(b, nv, |wv|) && |f| == 24
    ensures SameOutside(b, Put(Put(Put(b2, nk, wk), nv, wv), d + COUNT, f), d + COUNT, 24)
  {
    var b3 := Put(b2, nk, wk);
    var b4 := Put(b3, nv, wv);
    forall k | k in b ensures k in b4 && b4[k] == b[k] { assert k in b2 && k in b3; }
  }

  lemma CountIsLength(m: Memory, d: int, keys: seq<nat>, values: seq<nat>)
    requires DictOk(m, d, keys, values)
    ensures Field(m, d, COUNT) == |keys| == |values|
  {}

  lemma ReadyIsMapped(m: Memory, d: int, kp: int, keys: seq<nat>, vp: int, values: seq<nat>, nk: int, nv: int)
    requires Ready(m, d, kp, keys, vp, values, nk, nv)
    ensures Mapped(m.bytes, nk, 8 * |keys| + 8) && ArrayAt(m, kp, keys) && |keys| == |values|
  {
    assert AllocationOk(m, nk);
  }

  /** The arrays are copied to new ones with room for one more; the old ones stay allocated. */
  method AppendEntry(mem: Mem64, d: int, key: nat, value: nat, ghost keys: seq<nat>, ghost values: seq<nat>) returns (ok: bool)
    requires key <= U64_MAX && value <= U64_MAX
    modifies mem
    ensures old(DictOk(mem.State(), d, keys, values)) ==>
      && (ok <==> CanAllocateTwo(old(mem.State()), 8 * |keys| + 8))
      && if ok then DictOk(mem.State(), d, keys + [key], values + [value]) && Moved(old(mem.State()), mem.State(), d)
         else DictOk(mem.State(), d, keys, values) && SameOutside(old(mem.bytes), mem.bytes, 0, 0)
  {
    hide DictOk, Field, Words, Fields, ToLe, Put, Allocated, SameOutside, Mapped, Unmapped, HeapOk, Get, CanAllocateTwo;
    ghost var m, fine := mem.State(), DictOk(mem.State(), d, keys, values);
    var count := Field(mem.State(), d, COUNT);
    var keysAt := Field(mem.State(), d, KEYS);
    var valuesAt := Field(mem.State(), d, VALUES);
    var newKeys, newValues := NewArrays(mem, d, count, keys, values);
    if fine { CountIsLength(m, d, keys, values); }
    if newKeys.None? || newValues.None? { return false; }
    ok := FillArrays(mem, d, count, keysAt, valuesAt, newKeys.value, newValues.value, key, value, keys, values, m);
  }

  /** The copies, each with one more word, and then the fields. */
  method FillArrays(mem: Mem64, d: int, count: nat, keysAt: nat, valuesAt: nat, newKeys: nat, newValues: nat, key: nat, value: nat,
        ghost keys: seq<nat>, ghost values: seq<nat>, ghost m: Memory)
      returns (ok: bool)
    requires key <= U64_MAX && value <= U64_MAX
    modifies mem`bytes
    ensures old(Grown(m, mem.State(), newKeys, newValues, count) && count == |keys|
          && Ready(mem.State(), d, keysAt, keys, valuesAt, values, newKeys, newValues)) ==>
      ok && DictOk(mem.State(), d, keys + [key], values + [value]) && Moved(m, mem.State(), d)
  {
    hide DictOk, Field, Words, Fields, ToLe, Put, SameOutside, Mapped, Unmapped, HeapOk, Get, Ready, ArrayAt;
    ghost var m2 := mem.State();
    ghost var fine := Grown(m, m2, newKeys, newValues, count) && count == |keys| && Ready(m2, d, keysAt, keys, valuesAt, values, newKeys, newValues);
    if fine {
      ReadyIsMapped(m2, d, keysAt, keys, valuesAt, values, newKeys, newValues);
      ArrayIsMapped(m2, keysAt, keys);
    }
    ghost var wk, wv;
    ok, wk := CopyAppend(mem, newKeys, keysAt, count, key, keys);
    if !ok { return; }
    ghost var m3 := mem.State();
    if fine {
      KeysCopied(m2, d, keysAt, keys, valuesAt, values, newKeys, newValues, wk, key);
      ArrayIsMapped(m3, valuesAt, values);
    }
    ok, wv := CopyAppend(mem, newValues, valuesAt, count, value, values);
    if !ok { return; }
    if fine { FilledIsMoved(m, m2, m3, d, keysAt, keys, valuesAt, values, newKeys, newValues, wk, wv, key, value); }
    SetFields(mem, d, count + 1, newKeys, newValues);
  }

  /** The new memory holds two more allocations for one more entry. */
  ghost predicate Grown(m: Memory, m': Memory, kp: int, vp: int, count: nat) {
    && SameOutside(m.bytes, m'.bytes, 0, 0) && Unmapped(m.bytes, kp, 8 * count + 8) && Unmapped(m.bytes, vp, 8 * count + 8)
    && kp != vp && kp !in m.allocs && vp !in m.allocs && m'.allocs.Keys == m.allocs.Keys + {kp, vp}
  }

  lemma FilledIsMoved(m: Memory, m2: Memory, m3: Memory, d: int, kp: int, keys: seq<nat>, vp: int, values: seq<nat>,
      nk: nat, nv: nat, wk: seq<Byte>, wv: seq<Byte>, key: nat, value: nat)
    requires Grown(m, m2, nk, nv, |keys|) && Ready(m2, d, kp, keys, vp, values, nk, nv)
    requires |wk| == |wv| == 8 * |keys| + 8 && m3 == m2.(bytes := Put(m2.bytes, nk, wk))
    requires HeapOk(m3) && ArrayAt(m3, nk, keys + [key]) && Words(Put(m3.bytes, nv, wv), nv, values + [value])
    ensures var b := Put(m3.bytes, nv, wv);
      var m' := m3.(bytes := Put(b, d + COUNT, Fields(|keys| + 1, nk, nv)));
      d > 0 && d in m3.allocs && Mapped(b, d, OBJECT_SIZE) && DictOk(m', d, keys + [key], values + [value]) && Moved(m, m', d)
  {
    hide DictOk, Field, Words, Fields, Put, SameOutside, Mapped, Unmapped, HeapOk, ArrayAt;
    ValuesCopied(m3, d, keys + [key], values + [value], nk, nv, wv);
    OnlyFieldsChange(m.bytes, m2.bytes, d, nk, nv, wk, wv, Fields(|keys| + 1, nk, nv));
  }

  lemma ArrayIsMapped(m: Memory, p: int, xs: seq<nat>)
    requires ArrayAt(m, p, xs)
    ensures Words(m.bytes, p, xs) && Mapped(m.bytes, p, 8 * |xs|)
  {}

  /** Two fresh arrays with room for one more element, or only one of them, or none. */
  method NewArrays(mem: Mem64, d: int, count: nat, ghost keys: seq<nat>, ghost values: seq<nat>)
      returns (newKeys: Option<int>, newValues: Option<int>)
    modifies mem
    ensures old(DictOk(mem.State(), d, keys, values)) ==>
      DictOk(mem.State(), d, keys, values) && SameOutside(old(mem.bytes), mem.bytes, 0, 0)
    ensures newKeys.Some? && newValues.Some? ==> newKeys.value > 0 && newValues.value > 0
    ensures newKeys.Some? && newValues.Some? <==> CanAllocateTwo(old(mem.State()), 8 * count + 8)
    ensures old(DictOk(mem.State(), d, keys, values)) && |keys| == count && newKeys.Some? && newValues.Some? ==>
      && Grown(old(mem.State()), mem.State(), newKeys.value, newValues.value, count)
      && Ready(mem.State(), d, old(Field(mem.State(), d, KEYS)), keys, old(Field(mem.State(), d, VALUES)), values,
            newKeys.value, newValues.value)
  {
    hide DictOk, Field, Words, Ready, SameOutside, Allocated, Unmapped, Grown, CanAllocate, IsFirstFit, Rounded;
    ghost var m, fine := mem.State(), DictOk(mem.State(), d, keys, values);
    newKeys, newValues := None, None;
    SameAsBefore(m.bytes);
    newKeys := mem.AllocZeroed((count + 1) * 8);
    if newKeys.None? { return; }
    ghost var m1, n := mem.State(), Rounded((count + 1) * 8);
    AllocationAdds(m, newKeys.value, n);
    if fine { AllocationKeeps(m, d, keys, values, newKeys.value, n); }
    newValues := mem.AllocZeroed((count + 1) * 8);
    if newValues.None? {
      forall a: nat | IsFirstFit(m, n, a) ensures a == newKeys.value { FirstFitIsOne(m, n, a, newKeys.value); }
      return;
    }
    if fine {
      AllocationKeeps(m1, d, keys, values, newValues.value, n);
      BothGrown(m, newKeys.value, newValues.value, n, count);
      if |keys| == count { ReadyToCopy(m, d, keys, values, newKeys.value, newValues.value, n); }
    }
  }

  lemma SameAsBefore(b: Bytes)
    ensures SameOutside(b, b, 0, 0)
  {}

  lemma BothGrown(m: Memory, nk: nat, nv: nat, n: nat, count: nat)
    requires 8 * count + 8 <= n && Unmapped(m.bytes, nk, n) && Unmapped(Allocated(m, nk, n).bytes, nv, n)
    requires nk !in m.allocs && nv !in Allocated(m, nk, n).allocs
    ensures var m2 := Allocated(Allocated(m, nk, n), nv, n);
      && SameOutside(m.bytes, m2.bytes, 0, 0) && Grown(m, m2, nk, nv, count)
      && nk != nv && nv !in m.allocs
  {
    var m1 := Allocated(m, nk, n);
    var m2 := Allocated(m1, nv, n);
    assert m1.allocs.Keys == m.allocs.Keys + {nk} && m2.allocs.Keys == m.allocs.Keys + {nk, nv};
    forall k | k in m.bytes ensures k in m2.bytes && m2.bytes[k] == m.bytes[k] { assert k in m1.bytes; }
    forall k | nv <= k < nv + n ensures k !in m.bytes { assert k !in m1.bytes; }
  }

  lemma EntryIsMapped(m: Memory, d: int, keys: seq<nat>, values: seq<nat>, i: nat)
    requires DictOk(m, d, keys, values) && i < |keys|
    ensures var at := Field(m, d, KEYS) + 8 * i; at <= U64_MAX && Mapped(m.bytes, at, 8) && Word(m.bytes, at) == keys[i]
    ensures Field(m, d, VALUES) + 8 * i <= U64_MAX
  {
    assert AllocationOk(m, Field(m, d, KEYS)) && AllocationOk(m, Field(m, d, VALUES));
  }

  /** Overwrites the value of a key that the search finds; otherwise appends an entry. */
  method ObjcDictionarySet(mem: Mem64, d: int, key: nat, value: nat, ghost keys: seq<nat>, ghost values: seq<nat>) returns (ok: bool)
    requires key <= U64_MAX && value <= U64_MAX
    modifies mem
    ensures old(DictOk(mem.State(), d, keys, values)) ==>
      if ok then DictOk(mem.State(), d, NewKeys(keys, key), NewValues(keys, values, key, value))
      else DictOk(mem.State(), d, keys, values)
    ensures old(DictOk(mem.State(), d, keys, values)) && Found(keys, key) ==>
      var at := old(Field(mem.State(), d, VALUES)) + 8 * IndexOf(keys, key, Scanned(keys));
      ok && mem.allocs == old(mem.allocs) && mem.bytes == Put(old(mem.bytes), at, ToLe(value, 8))
    ensures old(DictOk(mem.State(), d, keys, values)) && !Found(keys, key) ==>
      (ok <==> CanAllocateTwo(old(mem.State()), 8 * |keys| + 8)) && (ok ==> Moved(old(mem.State()), mem.State(), d))
    ensures old(DictOk(mem.State(), d, keys, values)) && !ok ==> SameOutside(old(mem.bytes), mem.bytes, 0, 0)
  {
    hide DictOk, Field, Words, Moved, SameOutside, ToLe, Put, Written, Word, CanAllocateTwo;
    ghost var m, fine := mem.State(), DictOk(mem.State(), d, keys, values);
    var count := Field(mem.State(), d, COUNT);
    var keysAt := Field(mem.State(), d, KEYS);
    var valuesAt := Field(mem.State(), d, VALUES);
    if fine { CountIsLength(m, d, keys, values); }
    for index := 0 to Min(count, MAX_SCAN)
      invariant mem.State() == m
      invariant fine ==> forall j | 0 <= j < index :: keys[j] != key
    {
      if fine { EntryIsMapped(m, d, keys, values, index); }
      if keysAt + 8 * index > U64_MAX { return false; }
      var found := mem.ReadU64(keysAt + 8 * index);
      if found == Some(key) {
        if valuesAt + 8 * index > U64_MAX { return false; }
        if fine {
          IndexUnique(keys, key, Scanned(keys), index);
          ValueSet(m, d, keys, values, index, value);
        }
        ok := mem.WriteU64(valuesAt + 8 * index, value);
        return;
      }
    }
    ok := AppendEntry(mem, d, key, value, keys, values);
  }
}
