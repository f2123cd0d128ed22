/** The stack a 64-bit program starts with: strings at the top, and below them the argument count
    and three lists of pointers to the strings. */
module StartupStack {
  import opened GuestMemory64

  const STACK_BASE := 0x7fff_ffff_0000
  const STACK_SIZE := 0x0010_0000
  const STACK_LOW := STACK_BASE - STACK_SIZE

  datatype Stack = Stack(sp: nat, argv: nat, envp: nat, apple: nat)

  function AlignDown(a: nat): nat { a - a % 16 }

  // ---- What it should look like ----

  /** The strings one after the other in [lo, hi), each with its terminator. */
  predicate StringsAt(b: Bytes, strings: seq<seq<Byte>>, addrs: seq<nat>, lo: nat, hi: nat)
    decreases |strings|
  {
    |strings| == |addrs| &&
    if strings == [] then lo == hi
    else addrs[0] == lo && Holds(b, lo, strings[0]) && StringsAt(b, strings[1..], addrs[1..], lo + |strings[0]| + 1, hi)
  }

  /** Follows a list of pointers up to NULL, reading the string each of them points to. */
  function Walk(b: Bytes, p: int, limit: nat, longest: nat): Option<seq<seq<Byte>>>
    decreases limit
  {
    if limit == 0 || !Mapped(b, p, 8) then None
    else if Word(b, p) == 0 then Some([])
    else
      var s, rest := CString(b, Word(b, p), longest), Walk(b, p + 8, limit - 1, longest);
      if s.None? || rest.None? then None else Some([s.value] + rest.value)
  }

  predicate CStrings(strings: seq<seq<Byte>>, longest: nat) {
    forall i | 0 <= i < |strings| :: 0 !in strings[i] && |strings[i]| < longest
  }

  /** The strings lie within [lo, hi), in order, and do not overlap. */
  lemma {:induction false} StringsApart(b: Bytes, strings: seq<seq<Byte>>, addrs: seq<nat>, lo: nat, hi: nat, i: nat)
    requires StringsAt(b, strings, addrs, lo, hi) && i < |strings|
    ensures lo <= addrs[i] && addrs[i] + |strings[i]| + 1 <= hi && Holds(b, addrs[i], strings[i])
    ensures i + 1 < |strings| ==> addrs[i] + |strings[i]| + 1 == addrs[i + 1]
    decreases |strings|
  {
    StringsOrdered(b, strings, addrs, lo, hi);
    if i > 0 {
      StringsApart(b, strings[1..], addrs[1..], lo + |strings[0]| + 1, hi, i - 1);
    } else {
      StringsOrdered(b, strings[1..], addrs[1..], lo + |strings[0]| + 1, hi);
    }
  }

  lemma {:induction false} StringsOrdered(b: Bytes, strings: seq<seq<Byte>>, addrs: seq<nat>, lo: nat, hi: nat)
    requires StringsAt(b, strings, addrs, lo, hi)
    ensures lo <= hi
    decreases |strings|
  {
    if strings != [] { StringsOrdered(b, strings[1..], addrs[1..], lo + |strings[0]| + 1, hi); }
  }

  lemma WordsRest(b: Bytes, p: int, xs: seq<nat>)
    requires Words(b, p, xs) && xs != []
    ensures Mapped(b, p, 8) && Word(b, p) == xs[0] && Words(b, p + 8, xs[1..])
  {
    assert Mapped(b, p + 8 * 0, 8) && Word(b, p + 8 * 0) == xs[0];
    forall i | 0 <= i < |xs[1..]| ensures Mapped(b, p + 8 + 8 * i, 8) && Word(b, p + 8 + 8 * i) == xs[1..][i] {
      assert Mapped(b, p + 8 * (i + 1), 8) && Word(b, p + 8 * (i + 1)) == xs[i + 1];
    }
  }

  /** A list of pointers to strings reads back. */
  lemma {:induction false} WalkReadsBack(b: Bytes, p: int, strings: seq<seq<Byte>>, addrs: seq<nat>, lo: nat, hi: nat, longest: nat)
    requires StringsAt(b, strings, addrs, lo, hi) && lo > 0 && Words(b, p, addrs + [0]) && CStrings(strings, longest)
    ensures Walk(b, p, |strings| + 1, longest) == Some(strings)
    decreases |strings|
  {
    WordsRest(b, p, addrs + [0]);
    if strings != [] {
      assert (addrs + [0])[1..] == addrs[1..] + [0];
      CStringReads(b, lo, strings[0], longest);
      WalkReadsBack(b, p + 8, strings[1..], addrs[1..], lo + |strings[0]| + 1, hi, longest);
      assert strings == [strings[0]] + strings[1..];
    }
  }

  // ---- Writes elsewhere ----

  predicate SameOutside(b: Bytes, b': Bytes, lo: int, hi: int) {
    b'.Keys == b.Keys && forall k | k in b && !(lo <= k < hi) :: b'[k] == b[k]
  }

  lemma HoldsKept(b: Bytes, b': Bytes, a: int, s: seq<Byte>, lo: int, hi: int)
    requires Holds(b, a, s) && SameOutside(b, b', lo, hi) && (a + |s| < lo || hi <= a)
    ensures Holds(b', a, s)
  {
    forall k | a <= k < a + |s| + 1 ensures k in b' && b'[k] == b[k] {
      assert k in b.Keys;
    }
    assert Get(b', a, |s| + 1) == Get(b, a, |s| + 1);
  }

  lemma {:induction false} StringsKept(b: Bytes, b': Bytes, strings: seq<seq<Byte>>, addrs: seq<nat>, lo: nat, hi: nat, from: int, to: int)
    requires StringsAt(b, strings, addrs, lo, hi) && SameOutside(b, b', from, to) && to <= lo
    ensures StringsAt(b', strings, addrs, lo, hi)
    decreases |strings|
  {
    if strings != [] {
      HoldsKept(b, b', lo, strings[0], from, to);
      StringsKept(b, b', strings[1..], addrs[1..], lo + |strings[0]| + 1, hi, from, to);
    }
  }

  lemma WordsKept(b: Bytes, b': Bytes, p: int, xs: seq<nat>, from: int, to: int)
    requires Words(b, p, xs) && SameOutside(b, b', from, to) && (p + 8 * |xs| <= from || to <= p)
    ensures Words(b', p, xs)
  {
    forall i | 0 <= i < |xs| ensures Mapped(b', p + 8 * i, 8) && Word(b', p + 8 * i) == xs[i] {
      var a := p + 8 * i;
      assert Mapped(b, a, 8);
      forall k | a <= k < a + 8 ensures k in b' && b'[k] == b[k] { assert k in b.Keys; }
      assert Get(b', a, 8) == Get(b, a, 8);
    }
  }

  // ---- Building it ----

  method PutString(mem: Mem64, cursor: nat, value: seq<Byte>) returns (ok: bool, next: nat)
    modifies mem`bytes
    ensures ok ==> next + |value| + 1 == cursor && Holds(mem.bytes, next, value) && SameOutside(old(mem.bytes), mem.bytes, next, cursor)
    ensures ok <==> cursor >= |value| + 1 && Mapped(old(mem.bytes), cursor - |value| - 1, |value| + 1)
  {
    if cursor < |value| + 1 { return false, 0; }
    next := cursor - (|value| + 1);
    ghost var b := mem.bytes;
    ok := mem.WriteBytes(next, value);
    if !ok {
      PrefixMapped(b, next, |value| + 1, |value|);
      return;
    }
    PutKeepsMapped(b, next, value, next + |value|, 1);
    ok := mem.WriteBytes(next + |value|, [0]);
    if !ok {
      assert Mapped(b, next, |value| + 1) ==> next + |value| in b;
      return;
    }
    PutPut(b, next, value, [0]);
    Together(b, next, value);
    GetPutSame(b, next, value + [0]);
  }

  lemma PrefixMapped(b: Bytes, a: int, n: nat, m: nat)
    requires m <= n
    ensures Mapped(b, a, n) ==> Mapped(b, a, m)
  {}

  /** How many bytes the strings take, terminators included. */
  function Space(values: seq<seq<Byte>>): nat { if values == [] then 0 else |values[0]| + 1 + Space(values[1..]) }

  lemma {:induction false} SpaceOfRest(values: seq<seq<Byte>>, i: nat)
    requires i <= |values|
    ensures Space(values[i..]) <= Space(values)
    decreases i
  {
    if i > 0 {
      SpaceOfRest(values, i - 1);
      assert values[i - 1..][1..] == values[i..];
    } else {
      assert values[0..] == values;
    }
  }

  lemma SameMapped(b: Bytes, b': Bytes, from: int, to: int, a: int, n: nat)
    requires SameOutside(b, b', from, to)
    ensures Mapped(b', a, n) <==> Mapped(b, a, n)
  {
    assert forall k :: k in b' <==> k in b by { assert forall k :: k in b'.Keys <==> k in b.Keys; }
  }

  lemma Together(b: Bytes, a: int, s: seq<Byte>)
    requires Mapped(b, a, |s|) && Mapped(Put(b, a, s), a + |s|, 1)
    ensures Mapped(b, a, |s| + 1)
  {
    assert a + |s| in Put(b, a, s).Keys;
    forall k | a <= k < a + |s| + 1 ensures k in b {}
  }

  /** The strings from the last to the first, downwards from the cursor. */
  method PutStrings(mem: Mem64, cursor: nat, values: seq<seq<Byte>>) returns (ok: bool, addrs: seq<nat>, next: nat)
    modifies mem`bytes
    ensures ok ==> StringsAt(mem.bytes, values, addrs, next, cursor) && SameOutside(old(mem.bytes), mem.bytes, next, cursor)
    ensures ok ==> next == cursor - Space(values)
    ensures ok <==> cursor >= Space(values) && Mapped(old(mem.bytes), cursor - Space(values), Space(values))
  {
    hide SameOutside, Mapped, StringsAt, Holds;
    NoStrings(mem.bytes, cursor);
    ok, addrs, next := true, [], cursor;
    var i := |values|;
    assert values[i..] == [];
    while i > 0
      invariant 0 <= i <= |values| && StringsAt(mem.bytes, values[i..], addrs, next, cursor)
      invariant next == cursor - Space(values[i..]) && Mapped(old(mem.bytes), next, cursor - next)
      invariant SameOutside(old(mem.bytes), mem.bytes, next, cursor)
    {
      var v := values[i - 1];
      ghost var b := mem.bytes;
      assert values[i - 1..][1..] == values[i..] && Space(values[i - 1..]) == |v| + 1 + Space(values[i..]);
      SpaceOfRest(values, i - 1);
      SameMapped(old(mem.bytes), b, next, cursor, next - |v| - 1, |v| + 1);
      var at;
      ok, at := PutString(mem, next, v);
      if !ok {
        if cursor >= Space(values) { MappedPart(old(mem.bytes), cursor - Space(values), Space(values), next - |v| - 1, |v| + 1); }
        return;
      }
      MappedJoin(old(mem.bytes), at, |v| + 1, cursor - next);
      StringsPush(b, mem.bytes, values[i - 1..], addrs, at, next, cursor);
      SameTogether(old(mem.bytes), b, mem.bytes, at, next, cursor);
      addrs := [at] + addrs;
      next := at;
      i := i - 1;
    }
    assert values[0..] == values;
  }

  lemma NoStrings(b: Bytes, cursor: nat)
    ensures StringsAt(b, [], [], cursor, cursor) && SameOutside(b, b, cursor, cursor) && Mapped(b, cursor, 0)
  {}

  lemma MappedPart(b: Bytes, a: int, n: nat, c: int, m: nat)
    requires a <= c && c + m <= a + n
    ensures Mapped(b, a, n) ==> Mapped(b, c, m)
  {}

  lemma MappedJoin(b: Bytes, a: int, n: nat, m: nat)
    requires Mapped(b, a, n) && Mapped(b, a + n, m)
    ensures Mapped(b, a, n + m)
  {}

  lemma SameTogether(b: Bytes, b1: Bytes, b2: Bytes, lo: int, middle: int, hi: int)
    requires SameOutside(b, b1, middle, hi) && SameOutside(b1, b2, lo, middle) && lo <= middle <= hi
    ensures SameOutside(b, b2, lo, hi)
  {
    forall k | k in b && !(lo <= k < hi) ensures b2[k] == b[k] { assert k in b1.Keys; }
  }

  /** A string below those that are there already. */
  lemma StringsPush(b: Bytes, b': Bytes, values: seq<seq<Byte>>, addrs: seq<nat>, at: nat, next: nat, cursor: nat)
    requires values != [] && StringsAt(b, values[1..], addrs, next, cursor) && SameOutside(b, b', at, next)
    requires at + |values[0]| + 1 == next && Holds(b', at, values[0])
    ensures StringsAt(b', values, [at] + addrs, at, cursor)
  {
    StringsKept(b, b', values[1..], addrs, next, cursor, at, next);
    assert ([at] + addrs)[1..] == addrs;
  }

  lemma WordsPush(b: Bytes, p: int, xs: seq<nat>, x: nat)
    requires Words(b, p, xs) && Mapped(b, p + 8 * |xs|, 8) && x <= U64_MAX
    ensures var b' := Put(b, p + 8 * |xs|, ToLe(x, 8));
      Words(b', p, xs + [x]) && SameOutside(b, b', p + 8 * |xs|, p + 8 * |xs| + 8)
  {
    hide ToLe;
    var b' := Put(b, p + 8 * |xs|, ToLe(x, 8));
    WordWritten(b, p + 8 * |xs|, x);
    WordsKept(b, b', p, xs, p + 8 * |xs|, p + 8 * |xs| + 8);
  }

  /** The pointers and a NULL, upwards from the cursor. */
  method WriteList(mem: Mem64, cursor: nat, addrs: seq<nat>) returns (ok: bool, next: nat)
    requires forall i | 0 <= i < |addrs| :: addrs[i] <= U64_MAX
    modifies mem`bytes
    ensures ok ==> next == cursor + 8 * |addrs| + 8 && Words(mem.bytes, cursor, addrs + [0])
    ensures ok ==> SameOutside(old(mem.bytes), mem.bytes, cursor, next)
    ensures ok <==> Mapped(old(mem.bytes), cursor, 8 * |addrs| + 8)
  {
    hide Words, ToLe, Put, Written, SameOutside, Mapped;
    NoStrings(mem.bytes, cursor);
    ghost var b0 := mem.bytes;
    next := cursor;
    NoWords(mem.bytes, cursor);
    for i := 0 to |addrs|
      invariant next == cursor + 8 * i && Words(mem.bytes, cursor, addrs[..i])
      invariant SameOutside(b0, mem.bytes, cursor, next) && Mapped(b0, cursor, 8 * i)
    {
      ghost var b := mem.bytes;
      SameMapped(b0, b, cursor, next, next, 8);
      MappedPart(b0, cursor, 8 * |addrs| + 8, next, 8);
      ok := mem.WriteU64(next, addrs[i]);
      if !ok { return; }
      WordsPush(b, cursor, addrs[..i], addrs[i]);
      MappedJoin(b0, cursor, 8 * i, 8);
      SameAbove(b0, b, mem.bytes, cursor, next, next + 8);
      assert addrs[..i + 1] == addrs[..i] + [addrs[i]];
      next := next + 8;
    }
    assert addrs[..|addrs|] == addrs;
    ghost var b := mem.bytes;
    SameMapped(b0, b, cursor, next, next, 8);
    MappedPart(b0, cursor, 8 * |addrs| + 8, next, 8);
    ok := mem.WriteU64(next, 0);
    if !ok { return; }
    WordsPush(b, cursor, addrs, 0);
    MappedJoin(b0, cursor, 8 * |addrs|, 8);
    SameAbove(b0, b, mem.bytes, cursor, next, next + 8);
    next := next + 8;
  }

  lemma SameAbove(b: Bytes, b1: Bytes, b2: Bytes, lo: int, middle: int, hi: int)
    requires SameOutside(b, b1, lo, middle) && SameOutside(b1, b2, middle, hi) && lo <= middle <= hi
    ensures SameOutside(b, b2, lo, hi)
  {
    forall k | k in b && !(lo <= k < hi) ensures b2[k] == b[k] { assert k in b1.Keys; }
  }

  lemma NoWords(b: Bytes, p: int)
    ensures Words(b, p, [])
  {}

  /** How many pointer-sized entries lie at the stack pointer: the count, the lists and a NULL for
      each of them. */
  function Entries(argv: seq<seq<Byte>>, envp: seq<seq<Byte>>, apple: seq<seq<Byte>>): nat {
    |argv| + |envp| + |apple| + 4
  }

  /** The finished stack: an aligned stack pointer at the count, the three lists above it, and
      their strings above all of those. */
  ghost predicate StackOk(b: Bytes, s: Stack, argv: seq<seq<Byte>>, envp: seq<seq<Byte>>, apple: seq<seq<Byte>>) {
    && s.sp % 16 == 0 && Mapped(b, s.sp, 8) && Word(b, s.sp) == |argv|
    && s.argv == s.sp + 8 && s.envp == s.argv + 8 * (|argv| + 1) && s.apple == s.envp + 8 * (|envp| + 1)
    && exists av, ev, pv, top, middle, low: nat ::
         ListsOk(b, s, argv, envp, apple, av, ev, pv, top, middle, low)
  }

  ghost predicate ListsOk(b: Bytes, s: Stack, argv: seq<seq<Byte>>, envp: seq<seq<Byte>>, apple: seq<seq<Byte>>,
      av: seq<nat>, ev: seq<nat>, pv: seq<nat>, top: nat, middle: nat, low: nat)
  {
    && s.sp + 8 * Entries(argv, envp, apple) <= low
    && StringsAt(b, argv, av, top, STACK_BASE) && Words(b, s.argv, av + [0])
    && StringsAt(b, envp, ev, middle, top) && Words(b, s.envp, ev + [0])
    && StringsAt(b, apple, pv, low, middle) && Words(b, s.apple, pv + [0])
  }

  /** Walking the lists of a finished stack gives the arguments, the environment and the rest. */
  lemma ListsReadBack(b: Bytes, s: Stack, argv: seq<seq<Byte>>, envp: seq<seq<Byte>>, apple: seq<seq<Byte>>, longest: nat)
    requires StackOk(b, s, argv, envp, apple)
    requires CStrings(argv, longest) && CStrings(envp, longest) && CStrings(apple, longest)
    ensures Walk(b, s.argv, |argv| + 1, longest) == Some(argv)
    ensures Walk(b, s.envp, |envp| + 1, longest) == Some(envp)
    ensures Walk(b, s.apple, |apple| + 1, longest) == Some(apple)
  {
    hide Walk, CStrings, Words;
    var av, ev, pv, top: nat, middle: nat, low: nat :| ListsOk(b, s, argv, envp, apple, av, ev, pv, top, middle, low);
    StringsOrdered(b, apple, pv, low, middle);
    StringsOrdered(b, envp, ev, middle, top);
    WalkReadsBack(b, s.argv, argv, av, top, STACK_BASE, longest);
    WalkReadsBack(b, s.envp, envp, ev, middle, top, longest);
    WalkReadsBack(b, s.apple, apple, pv, low, middle, longest);
  }

  function AllSpace(argv: seq<seq<Byte>>, envp: seq<seq<Byte>>, apple: seq<seq<Byte>>): nat {
    Space(argv) + Space(envp) + Space(apple)
  }

  /** The strings of all three lists. */
  method PutAllStrings(mem: Mem64, argv: seq<seq<Byte>>, envp: seq<seq<Byte>>, apple: seq<seq<Byte>>)
      returns (ok: bool, av: seq<nat>, ev: seq<nat>, pv: seq<nat>, ghost top: nat, ghost middle: nat, low: nat)
    modifies mem`bytes
    ensures ok ==> StringsAt(mem.bytes, argv, av, top, STACK_BASE) && StringsAt(mem.bytes, envp, ev, middle, top)
    ensures ok ==> StringsAt(mem.bytes, apple, pv, low, middle) && low <= middle <= top <= STACK_BASE
    ensures ok ==> low == STACK_BASE - AllSpace(argv, envp, apple) && SameOutside(old(mem.bytes), mem.bytes, low, STACK_BASE)
    ensures var n := AllSpace(argv, envp, apple); ok <==> STACK_BASE >= n && Mapped(old(mem.bytes), STACK_BASE - n, n)
  {
    hide StringsAt, SameOutside, Mapped, Space;
    ghost var b0, n := mem.bytes, AllSpace(argv, envp, apple);
    if STACK_BASE >= n {
      MappedPart(b0, STACK_BASE - n, n, STACK_BASE - Space(argv), Space(argv));
      MappedPart(b0, STACK_BASE - n, n, STACK_BASE - Space(argv) - Space(envp), Space(envp));
      MappedPart(b0, STACK_BASE - n, n, STACK_BASE - n, Space(apple));
    }
    av, ev, pv, top, middle, low := [], [], [], 0, 0, 0;
    var cursor := AlignDown(STACK_BASE);
    ok, av, cursor := PutStrings(mem, cursor, argv);
    if !ok { return; }
    top := cursor;
    ghost var b1 := mem.bytes;
    SameMapped(b0, b1, top, STACK_BASE, top - Space(envp), Space(envp));
    ok, ev, cursor := PutStrings(mem, cursor, envp);
    if !ok { return; }
    middle := cursor;
    StringsKept(b1, mem.bytes, argv, av, top, STACK_BASE, middle, top);
    ghost var b2 := mem.bytes;
    SameTogether(b0, b1, b2, middle, top, STACK_BASE);
    MappedJoin(b0, middle, top - middle, STACK_BASE - top);
    SameMapped(b0, b2, middle, STACK_BASE, middle - Space(apple), Space(apple));
    ok, pv, cursor := PutStrings(mem, cursor, apple);
    if !ok { return; }
    low := cursor;
    StringsKept(b2, mem.bytes, argv, av, top, STACK_BASE, low, middle);
    StringsKept(b2, mem.bytes, envp, ev, middle, top, low, middle);
    SameTogether(b0, b2, mem.bytes, low, middle, STACK_BASE);
    MappedJoin(b0, low, middle - low, STACK_BASE - middle);
  }

  lemma {:induction false} EachTakesSpace(b: Bytes, strings: seq<seq<Byte>>, addrs: seq<nat>, lo: nat, hi: nat)
    requires StringsAt(b, strings, addrs, lo, hi)
    ensures |strings| <= hi - lo
    decreases |strings|
  {
    if strings != [] { EachTakesSpace(b, strings[1..], addrs[1..], lo + |strings[0]| + 1, hi); }
  }

  lemma AddressesFit(b: Bytes, strings: seq<seq<Byte>>, addrs: seq<nat>, lo: nat, hi: nat)
    requires StringsAt(b, strings, addrs, lo, hi) && hi <= STACK_BASE
    ensures |strings| == |addrs| <= STACK_BASE && forall i | 0 <= i < |addrs| :: addrs[i] <= U64_MAX
  {
    EachTakesSpace(b, strings, addrs, lo, hi);
    forall i | 0 <= i < |addrs| ensures addrs[i] <= U64_MAX { StringsApart(b, strings, addrs, lo, hi, i); }
  }

  /** Two lists, one after the other. */
  method WriteTwoLists(mem: Mem64, cursor: nat, xs: seq<nat>, ys: seq<nat>) returns (ok: bool)
    requires forall i | 0 <= i < |xs| :: xs[i] <= U64_MAX
    requires forall i | 0 <= i < |ys| :: ys[i] <= U64_MAX
    modifies mem`bytes
    ensures ok ==> Words(mem.bytes, cursor, xs + [0]) && Words(mem.bytes, cursor + 8 * |xs| + 8, ys + [0])
    ensures ok ==> SameOutside(old(mem.bytes), mem.bytes, cursor, cursor + 8 * |xs| + 8 * |ys| + 16)
    ensures ok <==> Mapped(old(mem.bytes), cursor, 8 * |xs| + 8 * |ys| + 16)
  {
    hide Words, Mapped, SameOutside;
    ghost var b0, n := mem.bytes, 8 * |xs| + 8 * |ys| + 16;
    MappedPart(b0, cursor, n, cursor, 8 * |xs| + 8);
    MappedPart(b0, cursor, n, cursor + 8 * |xs| + 8, 8 * |ys| + 8);
    var middle, end;
    ok, middle := WriteList(mem, cursor, xs);
    if !ok { return; }
    ghost var b1 := mem.bytes;
    SameMapped(b0, b1, cursor, middle, middle, 8 * |ys| + 8);
    ok, end := WriteList(mem, middle, ys);
    if !ok { return; }
    WordsKept(b1, mem.bytes, cursor, xs + [0], middle, end);
    MappedJoin(b0, cursor, middle - cursor, end - middle);
    SameAbove(b0, b1, mem.bytes, cursor, middle, end);
  }

  /** The count and the first list. */
  method WriteCountAndList(mem: Mem64, sp: nat, argc: nat, av: seq<nat>) returns (ok: bool)
    requires argc <= U64_MAX
    requires forall i | 0 <= i < |av| :: av[i] <= U64_MAX
    modifies mem`bytes
    ensures ok ==> Words(mem.bytes, sp, [argc]) && Words(mem.bytes, sp + 8, av + [0])
    ensures ok ==> SameOutside(old(mem.bytes), mem.bytes, sp, sp + 8 * |av| + 16)
    ensures ok <==> Mapped(old(mem.bytes), sp, 8 * |av| + 16)
  {
    hide Words, ToLe, Put, Written, Mapped, SameOutside;
    ghost var b0 := mem.bytes;
    MappedPart(b0, sp, 8 * |av| + 16, sp, 8);
    MappedPart(b0, sp, 8 * |av| + 16, sp + 8, 8 * |av| + 8);
    ok := mem.WriteU64(sp, argc);
    if !ok { return; }
    NoWords(b0, sp);
    WordsPush(b0, sp, [], argc);
    assert [] + [argc] == [argc];
    ghost var b1 := mem.bytes;
    SameMapped(b0, b1, sp, sp + 8, sp + 8, 8 * |av| + 8);
    var next;
    ok, next := WriteList(mem, sp + 8, av);
    if !ok { return; }
    WordsKept(b1, mem.bytes, sp, [argc], sp + 8, next);
    MappedJoin(b0, sp, 8, 8 * |av| + 8);
    SameAbove(b0, b1, mem.bytes, sp, sp + 8, next);
  }

  /** The count and the three lists, upwards from the stack pointer. */
  method WriteLists(mem: Mem64, sp: nat, argc: nat, av: seq<nat>, ev: seq<nat>, pv: seq<nat>) returns (ok: bool)
    requires argc <= U64_MAX
    requires forall i | 0 <= i < |av| :: av[i] <= U64_MAX
    requires forall i | 0 <= i < |ev| :: ev[i] <= U64_MAX
    requires forall i | 0 <= i < |pv| :: pv[i] <= U64_MAX
    modifies mem`bytes
    ensures ok ==> Words(mem.bytes, sp, [argc]) && Words(mem.bytes, sp + 8, av + [0])
    ensures ok ==> Words(mem.bytes, sp + 8 + 8 * (|av| + 1), ev + [0])
    ensures ok ==> Words(mem.bytes, sp + 8 + 8 * (|av| + 1) + 8 * (|ev| + 1), pv + [0])
    ensures ok ==> SameOutside(old(mem.bytes), mem.bytes, sp, sp + 8 * (|av| + |ev| + |pv| + 4))
    ensures ok <==> Mapped(old(mem.bytes), sp, 8 * (|av| + |ev| + |pv| + 4))
  {
    hide Words, Mapped, SameOutside;
    ghost var b0, n, next, rest := mem.bytes, 8 * (|av| + |ev| + |pv| + 4), sp + 8 * |av| + 16, 8 * |ev| + 8 * |pv| + 16;
    MappedPart(b0, sp, n, sp, 8 * |av| + 16);
    MappedPart(b0, sp, n, next, rest);
    ok := WriteCountAndList(mem, sp, argc, av);
    if !ok { return; }
    ghost var b1 := mem.bytes;
    SameMapped(b0, b1, sp, next, next, rest);
    ok := WriteTwoLists(mem, sp + 8 * |av| + 16, ev, pv);
    if !ok { return; }
    WordsKept(b1, mem.bytes, sp, [argc], next, next + rest);
    WordsKept(b1, mem.bytes, sp + 8, av + [0], next, next + rest);
    MappedJoin(b0, sp, 8 * |av| + 16, rest);
    SameAbove(b0, b1, mem.bytes, sp, next, next + rest);
  }

  /** Where the stack pointer ends up, if the addresses do not run out. */
  function PointerFor(argv: seq<seq<Byte>>, envp: seq<seq<Byte>>, apple: seq<seq<Byte>>): Option<nat> {
    var n, m := AllSpace(argv, envp, apple), 8 * Entries(argv, envp, apple);
    if n > STACK_BASE || AlignDown(STACK_BASE - n) < m then None else Some(AlignDown(AlignDown(STACK_BASE - n) - m))
  }

  predicate Fits(argv: seq<seq<Byte>>, envp: seq<seq<Byte>>, apple: seq<seq<Byte>>) {
    PointerFor(argv, envp, apple).Some? && PointerFor(argv, envp, apple).value >= STACK_LOW
  }

  /** The lists end at most 15 bytes below the strings' aligned start, which is at most 15 bytes below
      the strings, at an aligned stack pointer; there is none only if that would be negative. */
  lemma PointerIs(argv: seq<seq<Byte>>, envp: seq<seq<Byte>>, apple: seq<seq<Byte>>) returns (low: nat)
    ensures var n, m := Space(argv) + Space(envp) + Space(apple), 8 * (|argv| + |envp| + |apple| + 4);
      match PointerFor(argv, envp, apple)
      case Some(sp) => low % 16 == 0 && low <= STACK_BASE - n < low + 16 && sp % 16 == 0 && sp + m <= low < sp + m + 16
      case None => n + m + 15 > STACK_BASE
  {
    hide Space;
    var n, m := AllSpace(argv, envp, apple), 8 * Entries(argv, envp, apple);
    low := 0;
    if n <= STACK_BASE {
      low := AlignDown(STACK_BASE - n);
      AlignedDown(STACK_BASE - n);
      if low >= m { AlignedDown(low - m); }
      hide AlignDown;
    }
  }

  lemma AlignedDown(a: nat)
    ensures AlignDown(a) % 16 == 0 && AlignDown(a) <= a < AlignDown(a) + 16
  {}

  /** With nothing mapped in the 16 bytes below the stack, a stack that does not fit meets them. */
  lemma FitsExactly(b: Bytes, argv: seq<seq<Byte>>, envp: seq<seq<Byte>>, apple: seq<seq<Byte>>)
    requires Mapped(b, STACK_LOW, STACK_SIZE) && PointerFor(argv, envp, apple).Some?
    ensures var n, m, sp := AllSpace(argv, envp, apple), 8 * Entries(argv, envp, apple), PointerFor(argv, envp, apple).value;
      && (Fits(argv, envp, apple) ==> Mapped(b, STACK_BASE - n, n) && Mapped(b, sp, m))
      && (!Fits(argv, envp, apple) && Unmapped(b, STACK_LOW - 16, 16) ==> !Mapped(b, STACK_BASE - n, n) || !Mapped(b, sp, m))
  {
    hide AllSpace;
    var n, m, sp := AllSpace(argv, envp, apple), 8 * Entries(argv, envp, apple), PointerFor(argv, envp, apple).value;
    if Fits(argv, envp, apple) {
      MappedPart(b, STACK_LOW, STACK_SIZE, STACK_BASE - n, n);
      MappedPart(b, STACK_LOW, STACK_SIZE, sp, m);
    } else if Unmapped(b, STACK_LOW - 16, 16) {
      assert STACK_LOW - 16 !in b && STACK_LOW - 1 !in b;
      assert sp + m > STACK_LOW - 16 || STACK_BASE - n < STACK_LOW;
    }
  }

  /** Maps the stack and fills it. With nothing mapped just below, it succeeds exactly if nothing was
      mapped in its place and everything fits; no other memory changes. */
  method PrepareStack(mem: Mem64, argv: seq<seq<Byte>>, envp: seq<seq<Byte>>, apple: seq<seq<Byte>>) returns (r: Option<Stack>)
    modifies mem`bytes
    ensures r.Some? ==> StackOk(mem.bytes, r.value, argv, envp, apple) && Some(r.value.sp) == PointerFor(argv, envp, apple)
    ensures r.Some? ==> SameOutside(old(mem.bytes) + Zeros(STACK_LOW, STACK_SIZE), mem.bytes, r.value.sp, STACK_BASE)
    ensures Unmapped(old(mem.bytes), STACK_LOW - 16, 16) ==>
      (r.Some? <==> Unmapped(old(mem.bytes), STACK_LOW, STACK_SIZE) && Fits(argv, envp, apple))
  {
    hide StringsAt, Words, SameOutside, AllSpace, StackOk;
    var ok := mem.MapZeroed(STACK_LOW, STACK_SIZE);
    if !ok { return None; }
    ghost var b0 := mem.bytes;
    StackIsMapped(old(mem.bytes), STACK_LOW, STACK_SIZE);
    if PointerFor(argv, envp, apple).Some? { FitsExactly(b0, argv, envp, apple); }
    var av, ev, pv, low;
    ghost var top, middle;
    ok, av, ev, pv, top, middle, low := PutAllStrings(mem, argv, envp, apple);
    if !ok { return None; }
    var pointerBytes := Entries(argv, envp, apple) * 8;
    if AlignDown(low) < pointerBytes { return None; }
    var sp := AlignDown(AlignDown(low) - pointerBytes);
    ghost var b := mem.bytes;
    SameMapped(b0, b, low, STACK_BASE, sp, pointerBytes);
    AddressesFit(b, argv, av, top, STACK_BASE);
    AddressesFit(b, envp, ev, middle, top);
    AddressesFit(b, apple, pv, low, middle);
    ok := WriteLists(mem, sp, |argv|, av, ev, pv);
    if !ok { return None; }
    r := Some(Stack(sp, sp + 8, sp + 8 + 8 * (|argv| + 1), sp + 8 + 8 * (|argv| + 1) + 8 * (|envp| + 1)));
    Finished(b, mem.bytes, r.value, argv, envp, apple, av, ev, pv, top, middle, low);
    SameWider(b0, b, mem.bytes, sp, pointerBytes, low);
  }

  lemma StackIsMapped(b: Bytes, a: nat, n: nat)
    ensures Mapped(b + Zeros(a, n), a, n)
    ensures a >= 16 && Unmapped(b, a - 16, 16) ==> Unmapped(b + Zeros(a, n), a - 16, 16)
  {}

  lemma SameWider(b: Bytes, b1: Bytes, b2: Bytes, sp: nat, m: nat, low: nat)
    requires SameOutside(b, b1, low, STACK_BASE) && SameOutside(b1, b2, sp, sp + m) && sp + m <= low <= STACK_BASE
    ensures SameOutside(b, b2, sp, STACK_BASE)
  {
    forall k | k in b && !(sp <= k < STACK_BASE) ensures b2[k] == b[k] { assert k in b1.Keys; }
  }

  lemma Finished(b: Bytes, b': Bytes, s: Stack, argv: seq<seq<Byte>>, envp: seq<seq<Byte>>, apple: seq<seq<Byte>>,
      av: seq<nat>, ev: seq<nat>, pv: seq<nat>, top: nat, middle: nat, low: nat)
    requires s.sp % 16 == 0 && s.sp + 8 * Entries(argv, envp, apple) <= low <= middle <= top
    requires s.argv == s.sp + 8 && s.envp == s.argv + 8 * (|argv| + 1) && s.apple == s.envp + 8 * (|envp| + 1)
    requires StringsAt(b, argv, av, top, STACK_BASE) && StringsAt(b, envp, ev, middle, top) && StringsAt(b, apple, pv, low, middle)
    requires SameOutside(b, b', s.sp, s.sp + 8 * Entries(argv, envp, apple))
    requires Words(b', s.sp, [|argv|]) && Words(b', s.argv, av + [0]) && Words(b', s.envp, ev + [0]) && Words(b', s.apple, pv + [0])
    ensures StackOk(b', s, argv, envp, apple)
  {
    hide ListsOk, Words, SameOutside, StringsAt;
    WordsRest(b', s.sp, [|argv|]);
    ListsKept(b, b', s, argv, envp, apple, av, ev, pv, top, middle, low);
  }

  lemma ListsKept(b: Bytes, b': Bytes, s: Stack, argv: seq<seq<Byte>>, envp: seq<seq<Byte>>, apple: seq<seq<Byte>>,
      av: seq<nat>, ev: seq<nat>, pv: seq<nat>, top: nat, middle: nat, low: nat)
    requires s.sp + 8 * Entries(argv, envp, apple) <= low <= middle <= top
    requires StringsAt(b, argv, av, top, STACK_BASE) && StringsAt(b, envp, ev, middle, top) && StringsAt(b, apple, pv, low, middle)
    requires SameOutside(b, b', s.sp, s.sp + 8 * Entries(argv, envp, apple))
    requires Words(b', s.argv, av + [0]) && Words(b', s.envp, ev + [0]) && Words(b', s.apple, pv + [0])
    ensures ListsOk(b', s, argv, envp, apple, av, ev, pv, top, middle, low)
  {
    hide StringsAt, SameOutside, Words;
    var end := s.sp + 8 * Entries(argv, envp, apple);
    StringsKept(b, b', argv, av, top, STACK_BASE, s.sp, end);
    StringsKept(b, b', envp, ev, middle, top, s.sp, end);
    StringsKept(b, b', apple, pv, low, middle, s.sp, end);
  }
}
