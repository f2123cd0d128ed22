/** Calls through the guest's calling convention: arguments go to r0 to r3 and then to the stack,
    one word after the other, even in the middle of a 64-bit argument (section 6.5 of AAPCS32,
    without the rule of even registers). A result in memory is passed as a hidden first pointer. */
module Abi {
  import opened GuestMemory64

  const WORD := 0x1_0000_0000
  const FP := 7
  const SP := 13
  const LR := 14
  const PC := 15

  datatype Machine = Machine(regs: seq<nat>, mem: Bytes)

  // ---- Arguments ----

  datatype Kind = KU32 | KI32 | KU16 | KI16 | KU8 | KI8 | KBool | KU64 | KI64 | KPointer

  datatype Arg = Arg(kind: Kind, value: int)

  predicate InRange(lo: int, v: int, hi: int) { lo <= v < hi }

  predicate Valid(a: Arg) {
    match a.kind
    case KU32 => InRange(0, a.value, WORD)
    case KPointer => InRange(0, a.value, WORD)
    case KI32 => InRange(-0x8000_0000, a.value, 0x8000_0000)
    case KU16 => InRange(0, a.value, 0x1_0000)
    case KI16 => InRange(-0x8000, a.value, 0x8000)
    case KU8 => InRange(0, a.value, 0x100)
    case KI8 => InRange(-0x80, a.value, 0x80)
    case KBool => InRange(0, a.value, 2)
    case KU64 => InRange(0, a.value, WORD * WORD)
    case KI64 => InRange(-0x8000_0000_0000_0000, a.value, 0x8000_0000_0000_0000)
  }

  function RegCount(k: Kind): nat { if k == KU64 || k == KI64 then 2 else 1 }

  /** The words an argument is passed in. */
  function ToRegs(a: Arg): (r: seq<nat>)
    ensures |r| == RegCount(a.kind) && forall i | 0 <= i < |r| :: r[i] < WORD
  {
    if RegCount(a.kind) == 2 then
      var v := a.value % (WORD * WORD);
      [v % WORD, v / WORD]
    else [a.value % WORD]
  }

  /** The low bits, read as a signed number. */
  function Signed(v: nat, limit: nat): int
    requires limit > 0
  {
    var low := v % limit;
    if low < limit / 2 then low else low - limit
  }

  function FromRegs(k: Kind, r: seq<nat>): Arg
    requires |r| == RegCount(k)
  {
    match k
    case KU32 => Arg(k, r[0])
    case KPointer => Arg(k, r[0])
    case KI32 => Arg(k, Signed(r[0], WORD))
    case KU16 => Arg(k, r[0] % 0x1_0000)
    case KI16 => Arg(k, Signed(r[0], 0x1_0000))
    case KU8 => Arg(k, r[0] % 0x100)
    case KI8 => Arg(k, Signed(r[0], 0x100))
    case KBool => Arg(k, if r[0] != 0 then 1 else 0)
    case KU64 => Arg(k, r[0] + r[1] * WORD)
    case KI64 => Arg(k, Signed(r[0] + r[1] * WORD, WORD * WORD))
  }

  /** A signed number survives being cut to words and read back. */
  lemma SignedRoundTrip(v: int, limit: nat, word: nat)
    requires limit in {0x100, 0x1_0000, WORD, WORD * WORD} && -(limit / 2) <= v < limit / 2
    requires word == v % (if limit == WORD * WORD then limit else WORD)
    ensures Signed(word, limit) == v
  {
    if limit == 0x100 {
      assert word % 0x100 == v % 0x100;
    } else if limit == 0x1_0000 {
      assert word % 0x1_0000 == v % 0x1_0000;
    }
  }

  lemma TwoWords(v: nat)
    requires v < WORD * WORD
    ensures v % WORD + v / WORD * WORD == v && v / WORD < WORD
  {}

  /** Every argument survives the conversion to words and back, sign and all. */
  lemma ArgRoundTrip(a: Arg)
    requires Valid(a)
    ensures FromRegs(a.kind, ToRegs(a)) == a
  {
    hide Signed;
    match a.kind
    case KI32 => SignedRoundTrip(a.value, WORD, a.value % WORD);
    case KI16 => SignedRoundTrip(a.value, 0x1_0000, a.value % WORD);
    case KI8 => SignedRoundTrip(a.value, 0x100, a.value % WORD);
    case KU64 => TwoWords(a.value);
    case KI64 =>
      TwoWords(a.value % (WORD * WORD));
      SignedRoundTrip(a.value, WORD * WORD, a.value % (WORD * WORD));
    case _ =>
  }

  /** The words of all arguments, in order. */
  function WordsOf(args: seq<Arg>): (w: seq<nat>)
    ensures forall i | 0 <= i < |w| :: w[i] < WORD
  {
    if args == [] then [] else ToRegs(args[0]) + WordsOf(args[1..])
  }

  function RegCountSum(kinds: seq<Kind>): nat { if kinds == [] then 0 else RegCount(kinds[0]) + RegCountSum(kinds[1..]) }

  function Kinds(args: seq<Arg>): (k: seq<Kind>)
    ensures |k| == |args| && forall i | 0 <= i < |args| :: k[i] == args[i].kind
  {
    seq(|args|, i requires 0 <= i < |args| => args[i].kind)
  }

  // ---- Slots ----

  function Word4(b: Bytes, a: int): nat { if Mapped(b, a, 4) then FromLe(Get(b, a, 4)) else 0 }

  /** The j-th argument word: a register, or a word on the stack. */
  function Slot(m: Machine, sp: int, j: nat): nat
    requires |m.regs| == 16
  {
    if j < 4 then m.regs[j] else Word4(m.mem, sp + 4 * (j - 4))
  }

  function SetSlot(m: Machine, sp: int, j: nat, x: nat): (m': Machine)
    requires |m.regs| == 16
    ensures |m'.regs| == 16 && m'.mem.Keys == m.mem.Keys && forall r | 4 <= r < 16 :: m'.regs[r] == m.regs[r]
  {
    if j < 4 then m.(regs := m.regs[j := x]) else m.(mem := Put(m.mem, sp + 4 * (j - 4), ToLe(x, 4)))
  }

  /** The stack words up to the n-th argument word are there. */
  predicate Room(m: Machine, sp: int, n: nat) { Mapped(m.mem, sp, if n > 4 then 4 * (n - 4) else 0) }

  lemma SlotSet(m: Machine, sp: int, j: nat, x: nat, n: nat)
    requires |m.regs| == 16 && Room(m, sp, n) && j < n && x < WORD
    ensures Slot(SetSlot(m, sp, j, x), sp, j) == x
  {
    if j >= 4 {
      WordWrittenAt(m.mem, sp + 4 * (j - 4), x);
    }
  }

  lemma SlotKept(m: Machine, sp: int, j: nat, x: nat, k: nat, n: nat)
    requires |m.regs| == 16 && Room(m, sp, n) && k < n && k != j
    ensures Slot(SetSlot(m, sp, j, x), sp, k) == Slot(m, sp, k)
  {
    if j >= 4 && k >= 4 {
      var a, c := sp + 4 * (j - 4), sp + 4 * (k - 4);
      assert Mapped(m.mem, c, 4);
      GetPutOther(m.mem, a, ToLe(x, 4), c, 4);
    }
  }

  lemma RoomKept(m: Machine, sp: int, j: nat, x: nat, n: nat)
    requires |m.regs| == 16 && Room(m, sp, n)
    ensures Room(SetSlot(m, sp, j, x), sp, n)
  {
    if j >= 4 { PutKeepsMapped(m.mem, sp + 4 * (j - 4), ToLe(x, 4), sp, if n > 4 then 4 * (n - 4) else 0); }
  }

  /** The words are in the slots from `from` on. */
  predicate Stored(m: Machine, sp: int, from: nat, w: seq<nat>)
    requires |m.regs| == 16
  {
    forall i | 0 <= i < |w| :: Slot(m, sp, from + i) == w[i]
  }

  function SetSlots(m: Machine, sp: int, from: nat, w: seq<nat>): (m': Machine)
    requires |m.regs| == 16
    ensures |m'.regs| == 16 && m'.mem.Keys == m.mem.Keys && forall r | 4 <= r < 16 :: m'.regs[r] == m.regs[r]
    decreases |w|
  {
    if w == [] then m else SetSlots(SetSlot(m, sp, from, w[0]), sp, from + 1, w[1..])
  }

  /** Writing words one after the other stores them all, and leaves other slots alone. */
  lemma {:induction false} SlotsSet(m: Machine, sp: int, from: nat, w: seq<nat>, n: nat)
    requires |m.regs| == 16 && Room(m, sp, n) && from + |w| <= n && forall i | 0 <= i < |w| :: w[i] < WORD
    ensures var m' := SetSlots(m, sp, from, w);
      Stored(m', sp, from, w) && Room(m', sp, n) && forall k: nat | k < from :: Slot(m', sp, k) == Slot(m, sp, k)
    decreases |w|
  {
    if w != [] {
      hide Slot, SetSlot, Room;
      var m1 := SetSlot(m, sp, from, w[0]);
      SlotSet(m, sp, from, w[0], n);
      RoomKept(m, sp, from, w[0], n);
      SlotsSet(m1, sp, from + 1, w[1..], n);
      var m' := SetSlots(m, sp, from, w);
      forall i | 0 <= i < |w| ensures Slot(m', sp, from + i) == w[i] {
        if i > 0 { assert Slot(m', sp, from + 1 + (i - 1)) == w[1..][i - 1]; }
      }
      forall k: nat | k < from ensures Slot(m', sp, k) == Slot(m, sp, k) { SlotKept(m, sp, from, w[0], k, n); }
    }
  }

  lemma {:induction false} SlotsConcat(m: Machine, sp: int, from: nat, v: seq<nat>, w: seq<nat>)
    requires |m.regs| == 16
    ensures SetSlots(SetSlots(m, sp, from, v), sp, from + |v|, w) == SetSlots(m, sp, from, v + w)
    decreases |v|
  {
    hide SetSlot;
    if v == [] {
      assert [] + w == w;
    } else {
      SlotsConcat(SetSlot(m, sp, from, v[0]), sp, from + 1, v[1..], w);
      assert (v + w)[1..] == v[1..] + w;
    }
  }

  function StackEnd(sp: int, n: nat): int { if n > 4 then sp + 4 * (n - 4) else sp }

  /** Memory outside the stack words is not touched. */
  lemma {:induction false} SlotsFrame(m: Machine, sp: int, from: nat, w: seq<nat>, k: int)
    requires |m.regs| == 16 && k in m.mem && !(sp <= k < StackEnd(sp, from + |w|))
    ensures SetSlots(m, sp, from, w).mem[k] == m.mem[k]
    decreases |w|
  {
    if w != [] { SlotsFrame(SetSlot(m, sp, from, w[0]), sp, from + 1, w[1..], k); }
  }

  function SlotsOf(m: Machine, sp: int, from: nat, n: nat): (w: seq<nat>)
    requires |m.regs| == 16
    ensures |w| == n && forall i | 0 <= i < n :: w[i] == Slot(m, sp, from + i)
  {
    seq<nat>(n, i requires 0 <= i < n => Slot(m, sp, from + i))
  }

  lemma StoredParts(m: Machine, sp: int, from: nat, v: seq<nat>, w: seq<nat>)
    requires |m.regs| == 16 && Stored(m, sp, from, v + w)
    ensures SlotsOf(m, sp, from, |v|) == v && Stored(m, sp, from + |v|, w)
  {
    hide Slot;
    forall i | 0 <= i < |v| ensures Slot(m, sp, from + i) == v[i] { assert (v + w)[i] == v[i]; }
    forall i | 0 <= i < |w| ensures Slot(m, sp, from + |v| + i) == w[i] {
      assert (v + w)[|v| + i] == w[i] && Slot(m, sp, from + (|v| + i)) == (v + w)[|v| + i];
    }
  }

  lemma {:induction false} WordsSnoc(args: seq<Arg>, a: Arg)
    ensures WordsOf(args + [a]) == WordsOf(args) + ToRegs(a)
    decreases |args|
  {
    hide ToRegs;
    if args == [] {
      assert [] + [a] == [a] && [a][1..] == [];
      assert WordsOf([a]) == ToRegs(a) + WordsOf([]);
    } else {
      WordsSnoc(args[1..], a);
      assert (args + [a])[0] == args[0] && (args + [a])[1..] == args[1..] + [a];
    }
  }

  lemma {:induction false} WordCount(args: seq<Arg>)
    ensures |WordsOf(args)| == RegCountSum(Kinds(args))
    decreases |args|
  {
    if args != [] {
      WordCount(args[1..]);
      assert Kinds(args)[1..] == Kinds(args[1..]);
    }
  }

  predicate AllValid(args: seq<Arg>) { forall i | 0 <= i < |args| :: Valid(args[i]) }

  // ---- The numbers that are passed ----

  predicate Is64Bit(k: Kind) { k == KU64 || k == KI64 }

  /** Where the part of an argument that is on the stack begins. */
  function StackPart(sp: int, j: nat): int { if j < 4 then sp else sp + 4 * (j - 4) }

  /** The stack has the words of an argument that starts with the j-th argument word. */
  predicate HasWords(m: Machine, sp: int, j: nat, k: Kind) {
    && |m.regs| == 16
    && if Is64Bit(k) then (j >= 4 ==> Mapped(m.mem, StackPart(sp, j), 8)) && (j == 3 ==> Mapped(m.mem, sp, 4))
       else j >= 4 ==> Mapped(m.mem, StackPart(sp, j), 4)
  }

  /** The number passed from the j-th argument word on: 4 or 8 little-endian bytes on the stack, a
      register, two registers with the low half first, or the low half in r3 and the high half on the
      stack. */
  function Passed(m: Machine, sp: int, j: nat, k: Kind): nat
    requires HasWords(m, sp, j, k)
  {
    if Is64Bit(k) then
      if j >= 4 then FromLe(Get(m.mem, sp + 4 * (j - 4), 8))
      else if j == 3 then m.regs[3] + 0x1_0000_0000 * FromLe(Get(m.mem, sp, 4))
      else m.regs[j] + 0x1_0000_0000 * m.regs[j + 1]
    else if j >= 4 then FromLe(Get(m.mem, sp + 4 * (j - 4), 4))
    else m.regs[j]
  }

  /** How many numbers there are of the kind's width. */
  function Modulus(k: Kind): nat {
    match k
    case KU8 => 0x100
    case KI8 => 0x100
    case KU16 => 0x1_0000
    case KI16 => 0x1_0000
    case KU64 => 0x1_0000_0000_0000_0000
    case KI64 => 0x1_0000_0000_0000_0000
    case _ => 0x1_0000_0000
  }

  /** The argument of the kind that agrees with the number in as many low bits as the kind has; a
      Boolean tells whether the number is 0. */
  predicate IsRead(a: Arg, k: Kind, v: nat) {
    && a.kind == k && Valid(a)
    && if k == KBool then a.value == 0 <==> v == 0 else a.value % Modulus(k) == v % Modulus(k)
  }

  /** At most one argument is. */
  lemma ReadIsUnique(a: Arg, b: Arg, k: Kind, v: nat)
    requires IsRead(a, k, v) && IsRead(b, k, v)
    ensures a == b
  {
    match k {
      case KI8 => OneResidue(a.value, b.value, 0x100);
      case KI16 => OneResidue(a.value, b.value, 0x1_0000);
      case KI32 => OneResidue(a.value, b.value, WORD);
      case KI64 => OneResidue(a.value, b.value, WORD * WORD);
      case _ =>
    }
  }

  lemma OneResidue(x: int, y: int, n: int)
    requires n in {0x100, 0x1_0000, WORD, WORD * WORD} && x % n == y % n && -n < x - y < n
    ensures x == y
  {}

  lemma {:induction false} FromLeParts(s: seq<Byte>, t: seq<Byte>)
    ensures FromLe(s + t) == FromLe(s) + Power256(|s|) * FromLe(t)
    decreases |s|
  {
    if s == [] {
      assert s + t == t;
    } else {
      assert (s + t)[0] == s[0] && (s + t)[1..] == s[1..] + t;
      FromLeParts(s[1..], t);
      assert 256 * (Power256(|s| - 1) * FromLe(t)) == Power256(|s|) * FromLe(t);
    }
  }

  lemma {:induction false} FromLeBound(s: seq<Byte>)
    ensures FromLe(s) < Power256(|s|)
    decreases |s|
  {
    if s != [] { FromLeBound(s[1..]); }
  }

  lemma EightBytes(b: Bytes, a: int)
    requires Mapped(b, a, 8)
    ensures FromLe(Get(b, a, 8)) == Word4(b, a) + WORD * Word4(b, a + 4)
  {
    assert Get(b, a, 8) == Get(b, a, 4) + Get(b, a + 4, 4);
    FromLeParts(Get(b, a, 4), Get(b, a + 4, 4));
    assert Power256(4) == WORD;
  }

  lemma Word4Bound(b: Bytes, a: int)
    ensures Word4(b, a) < WORD
  {
    if Mapped(b, a, 4) {
      FromLeBound(Get(b, a, 4));
      assert Power256(4) == WORD;
    }
  }

  lemma PassedInSlots(m: Machine, sp: int, j: nat, k: Kind)
    requires HasWords(m, sp, j, k)
    ensures Passed(m, sp, j, k) == if Is64Bit(k) then Slot(m, sp, j) + WORD * Slot(m, sp, j + 1) else Slot(m, sp, j)
  {
    hide FromLe;
    if Is64Bit(k) && j >= 4 {
      EightBytes(m.mem, sp + 4 * (j - 4));
      assert sp + 4 * (j - 4) + 4 == sp + 4 * (j + 1 - 4);
    }
  }

  lemma SignedIs(v: nat, n: nat)
    requires n in {0x100, 0x1_0000, WORD, WORD * WORD}
    ensures -(n / 2) <= Signed(v, n) < n / 2 && Signed(v, n) % n == v % n
  {}

  lemma FromRegsIsRead(k: Kind, r: seq<nat>)
    requires |r| == RegCount(k) && forall i | 0 <= i < |r| :: r[i] < WORD
    ensures IsRead(FromRegs(k, r), k, if Is64Bit(k) then r[0] + WORD * r[1] else r[0])
  {
    if Is64Bit(k) { FromTwoRegs(k, r[0], r[1]); } else { FromOneReg(k, r[0]); }
    hide IsRead;
    assert r == if Is64Bit(k) then [r[0], r[1]] else [r[0]];
  }

  lemma FromOneReg(k: Kind, x: nat)
    requires !Is64Bit(k) && x < WORD
    ensures IsRead(FromRegs(k, [x]), k, x)
  {
    hide Signed;
    match k {
      case KI8 => SignedIs(x, 0x100);
      case KI16 => SignedIs(x, 0x1_0000);
      case KI32 => SignedIs(x, WORD);
      case _ =>
    }
  }

  lemma FromTwoRegs(k: Kind, x: nat, y: nat)
    requires Is64Bit(k) && x < WORD && y < WORD
    ensures IsRead(FromRegs(k, [x, y]), k, x + WORD * y)
  {
    hide Signed;
    if k == KI64 { SignedIs(x + WORD * y, WORD * WORD); }
  }

  predicate RegistersAreWords(m: Machine) { |m.regs| == 16 && forall j | 0 <= j < 4 :: m.regs[j] < WORD }

  /** What is read is the number that is passed. */
  lemma PassedIsRead(m: Machine, sp: int, j: nat, k: Kind)
    requires HasWords(m, sp, j, k) && RegistersAreWords(m)
    ensures IsRead(FromRegs(k, SlotsOf(m, sp, j, RegCount(k))), k, Passed(m, sp, j, k))
  {
    hide FromRegs, IsRead, FromLe, Word4;
    PassedInSlots(m, sp, j, k);
    Word4Bound(m.mem, sp + 4 * (j - 4));
    Word4Bound(m.mem, sp + 4 * (j + 1 - 4));
    FromRegsIsRead(k, SlotsOf(m, sp, j, RegCount(k)));
  }

  lemma WordsOfArg(a: Arg)
    ensures var w := ToRegs(a);
      if Is64Bit(a.kind) then w[0] + WORD * w[1] == a.value % 0x1_0000_0000_0000_0000 else w[0] == a.value % 0x1_0000_0000
  {
    TwoWords(a.value % (WORD * WORD));
  }

  /** What is written is passed, sign and all. */
  lemma WrittenIsPassed(m: Machine, sp: int, j: nat, a: Arg)
    requires |m.regs| == 16 && Room(m, sp, j + RegCount(a.kind))
    ensures var m' := SetSlots(m, sp, j, ToRegs(a));
      && HasWords(m', sp, j, a.kind)
      && Passed(m', sp, j, a.kind) == a.value % (if Is64Bit(a.kind) then 0x1_0000_0000_0000_0000 else 0x1_0000_0000)
  {
    hide ToRegs, SetSlots, Passed, Slot;
    var m', w := SetSlots(m, sp, j, ToRegs(a)), ToRegs(a);
    SlotsSet(m, sp, j, w, j + |w|);
    assert Slot(m', sp, j + 0) == w[0];
    assert Is64Bit(a.kind) ==> Slot(m', sp, j + 1) == w[1];
    PassedInSlots(m', sp, j, a.kind);
    WordsOfArg(a);
  }

  // ---- Results ----

  datatype RetType = InMemory(size: nat) | InRegisters(kind: Kind) | Void
  datatype Ret = Bytes(bytes: seq<Byte>) | Value(value: Arg) | Nothing

  predicate HasType(r: Ret, t: RetType) {
    match t
    case InMemory(size) => r.Bytes? && |r.bytes| == size
    case InRegisters(kind) => r.Value? && r.value.kind == kind && Valid(r.value)
    case Void => r.Nothing?
  }

  /** The result written where the caller expects it. */
  function Returned(m: Machine, r: Ret, pointer: int): (m': Machine)
    requires |m.regs| == 16
    ensures |m'.regs| == 16 && forall r | 4 <= r < 16 :: m'.regs[r] == m.regs[r]
  {
    match r
    case Bytes(bytes) => m.(mem := Put(m.mem, pointer, bytes))
    case Value(value) => SetSlots(m, 0, 0, ToRegs(value))
    case Nothing => m
  }

  /** A host function: what it returns, and what it does to the machine. */
  type HostFunction = (seq<Arg>, Machine) -> (Ret, Machine)

  /** It returns what its type says and unmaps nothing. */
  predicate Returns(out: (Ret, Machine), m: Machine, ret: RetType) {
    HasType(out.0, ret) && |out.1.regs| == 16 && out.1.mem.Keys == m.mem.Keys
  }

  ghost predicate IsHost(host: HostFunction, ret: RetType) {
    forall a: seq<Arg>, m: Machine | |m.regs| == 16 :: Returns(host(a, m), m, ret)
  }

  /** A host function with variable arguments gets the place where they begin as well. */
  type VariadicFunction = (seq<Arg>, nat, nat, Machine) -> (Ret, Machine)

  ghost predicate IsVariadic(host: VariadicFunction, ret: RetType) {
    forall a: seq<Arg>, from: nat, sp: nat, m: Machine | |m.regs| == 16 :: Returns(host(a, from, sp, m), m, ret)
  }

  class Environment {
    const regs: array<nat>
    var mem: Bytes

    ghost predicate Ok()
      reads this, regs
    {
      regs.Length == 16
    }

    function State(): Machine
      requires regs.Length == 16
      reads this, regs
    {
      Machine(regs[..], mem)
    }

    method SetWord(sp: int, j: nat, x: nat)
      requires Ok() && x < WORD
      modifies regs, this`mem
      ensures Ok() && State() == SetSlot(old(State()), sp, j, x)
    {
      if j < 4 {
        regs[j] := x;
      } else {
        mem := Put(mem, sp + 4 * (j - 4), ToLe(x, 4));
      }
    }

    /** Writes the words of one argument to registers or the stack. */
    method WriteNextArg(regOffset: nat, arg: Arg) returns (next: nat)
      requires Ok()
      modifies regs, this`mem
      ensures Ok() && State() == SetSlots(old(State()), old(regs[SP]), regOffset, ToRegs(arg))
      ensures next == regOffset + RegCount(arg.kind) && regs[SP] == old(regs[SP])
      ensures old(Room(State(), regs[SP], regOffset + RegCount(arg.kind))) ==>
        && HasWords(State(), regs[SP], regOffset, arg.kind)
        && Passed(State(), regs[SP], regOffset, arg.kind)
             == arg.value % (if Is64Bit(arg.kind) then 0x1_0000_0000_0000_0000 else 0x1_0000_0000)
    {
      hide SetSlot, ToRegs, Room, Passed, HasWords;
      if Room(State(), regs[SP], regOffset + RegCount(arg.kind)) { WrittenIsPassed(State(), regs[SP], regOffset, arg); }
      var fakeRegs := ToRegs(arg);
      next := regOffset;
      ghost var m, sp := State(), regs[SP];
      assert m == SetSlots(m, sp, regOffset, fakeRegs[..0]);
      for i := 0 to |fakeRegs|
        invariant Ok() && next == regOffset + i && regs[SP] == sp
        invariant State() == SetSlots(m, sp, regOffset, fakeRegs[..i])
      {
        SetWord(regs[SP], next, fakeRegs[i]);
        SlotsPush(m, sp, regOffset, fakeRegs[..i], fakeRegs[i]);
        assert fakeRegs[..i] + [fakeRegs[i]] == fakeRegs[..i + 1];
        next := next + 1;
      }
      assert fakeRegs[..|fakeRegs|] == fakeRegs;
    }

    /** Reads one argument from registers or the stack. */
    method ReadNextArg(regOffset: nat, stackPtr: nat, kind: Kind) returns (arg: Arg, next: nat)
      requires Ok()
      ensures arg == FromRegs(kind, SlotsOf(State(), stackPtr, regOffset, RegCount(kind)))
      ensures next == regOffset + RegCount(kind)
      ensures RegistersAreWords(State()) && HasWords(State(), stackPtr, regOffset, kind) ==>
        IsRead(arg, kind, Passed(State(), stackPtr, regOffset, kind))
    {
      hide FromRegs, IsRead, Passed, HasWords, RegistersAreWords;
      if RegistersAreWords(State()) && HasWords(State(), stackPtr, regOffset, kind) {
        PassedIsRead(State(), stackPtr, regOffset, kind);
      }
      var fakeRegs: seq<nat> := [];
      next := regOffset;
      for i := 0 to RegCount(kind)
        invariant next == regOffset + i && fakeRegs == SlotsOf(State(), stackPtr, regOffset, i)
      {
        var word := if next < 4 then regs[next] else Word4(mem, stackPtr + 4 * (next - 4));
        fakeRegs := fakeRegs + [word];
        next := next + 1;
      }
      arg := FromRegs(kind, fakeRegs);
    }

    /** Lowers the stack pointer for the words that do not fit the registers. */
    method ExtendStackForArgs(regCountSum: nat) returns (oldSp: nat)
      requires Ok() && (regCountSum > 4 ==> regs[SP] >= 4 * (regCountSum - 4))
      modifies regs
      ensures Ok() && oldSp == old(regs[SP])
      ensures regs[..] == old(regs[..])[SP := if regCountSum > 4 then oldSp - 4 * (regCountSum - 4) else oldSp]
    {
      oldSp := regs[SP];
      if regCountSum > 4 { regs[SP] := oldSp - 4 * (regCountSum - 4); }
    }

    /** Writes arguments in order, from a given argument word on. */
    method WriteArgs(regOffset: nat, args: seq<Arg>) returns (next: nat)
      requires Ok()
      modifies regs, this`mem
      ensures Ok() && State() == SetSlots(old(State()), old(regs[SP]), regOffset, WordsOf(args))
      ensures next == regOffset + |WordsOf(args)| && regs[SP] == old(regs[SP])
    {
      hide SetSlots, WordsOf, ToRegs;
      next := regOffset;
      ghost var m, sp := State(), regs[SP];
      NoWordsWritten(m, sp, regOffset);
      for i := 0 to |args|
        invariant Ok() && regs[SP] == sp && next == regOffset + |WordsOf(args[..i])|
        invariant State() == SetSlots(m, sp, regOffset, WordsOf(args[..i]))
      {
        next := WriteNextArg(next, args[i]);
        SlotsConcat(m, sp, regOffset, WordsOf(args[..i]), ToRegs(args[i]));
        WordsSnoc(args[..i], args[i]);
        assert args[..i] + [args[i]] == args[..i + 1];
      }
      assert args[..|args|] == args;
    }

    /** Reads arguments in order; those that were written are what is read. */
    method ReadArgs(regOffset: nat, stackPtr: nat, kinds: seq<Kind>, ghost args: seq<Arg>) returns (r: seq<Arg>, next: nat)
      requires Ok()
      ensures Kinds(args) == kinds && AllValid(args) && Stored(State(), stackPtr, regOffset, WordsOf(args)) ==>
        r == args && next == regOffset + |WordsOf(args)|
    {
      hide Slot, WordsOf, ToRegs, FromRegs, Valid, Stored;
      r, next := [], regOffset;
      ghost var fine := Kinds(args) == kinds && AllValid(args) && Stored(State(), stackPtr, regOffset, WordsOf(args));
      if fine { NoWordsOf(args, State(), stackPtr, regOffset); }
      for i := 0 to |kinds|
        invariant fine ==> r == args[..i] && next == regOffset + |WordsOf(args[..i])|
        invariant fine ==> Stored(State(), stackPtr, next, WordsOf(args[i..]))
      {
        if fine { NextIsStored(State(), stackPtr, next, args, i); }
        var arg;
        arg, next := ReadNextArg(next, stackPtr, kinds[i]);
        r := r + [arg];
        if fine {
          WordsSnoc(args[..i], args[i]);
          assert args[..i] + [args[i]] == args[..i + 1];
        }
      }
      assert fine ==> args[..|args|] == args;
    }

    /** Runs a host function the guest has called: reads the hidden pointer and the arguments, and
        only then writes the result. */
    method CallFromGuest(kinds: seq<Kind>, ret: RetType, host: HostFunction, ghost args: seq<Arg>, ghost pointer: nat)
      requires Ok() && IsHost(host, ret)
      modifies regs, this`mem
      ensures Ok()
      ensures old(Called(State(), kinds, ret, args, pointer)) ==>
        var out := host(args, old(State())); State() == Returned(out.1, out.0, pointer)
    {
      hide Slot, WordsOf, ToRegs, FromRegs, Valid, Stored, HasType;
      ghost var m := State();
      var values, regOffset, retvalPtr := ReadHostArgs(kinds, ret, args, pointer);
      var out := host(values, State());
      assert Returns(out, State(), ret);
      WriteResult(out, ret, retvalPtr);
    }

    /** Calls a function with variable arguments: they begin where the fixed ones end. */
    method CallVariadic(kinds: seq<Kind>, ret: RetType, host: VariadicFunction,
          ghost args: seq<Arg>, ghost variable: seq<Arg>, ghost pointer: nat)
      requires Ok() && IsVariadic(host, ret)
      modifies regs, this`mem
      ensures Ok()
      ensures old(Called(State(), kinds + Kinds(variable), ret, args + variable, pointer)) && Kinds(args) == kinds ==>
        var from := HiddenWords(ret) + |WordsOf(args)|;
        && Stored(old(State()), old(regs[SP]), from, WordsOf(variable))
        && var out := host(args, from, old(regs[SP]), old(State())); State() == Returned(out.1, out.0, pointer)
    {
      hide Slot, WordsOf, ToRegs, FromRegs, Valid, Stored, HasType, Returned;
      ghost var m := State();
      ghost var called := Called(m, kinds + Kinds(variable), ret, args + variable, pointer) && Kinds(args) == kinds;
      if called { FixedPart(m, kinds, ret, args, variable, pointer); }
      var values, regOffset, retvalPtr := ReadHostArgs(kinds, ret, args, pointer);
      var out := host(values, regOffset, regs[SP], State());
      assert Returns(out, m, ret);
      WriteResult(out, ret, retvalPtr);
    }

    /** The hidden pointer, if there is one, and the arguments. */
    method ReadHostArgs(kinds: seq<Kind>, ret: RetType, ghost args: seq<Arg>, ghost pointer: nat)
        returns (values: seq<Arg>, regOffset: nat, retvalPtr: nat)
      requires Ok()
      ensures Called(State(), kinds, ret, args, pointer) ==>
        values == args && regOffset == HiddenWords(ret) + |WordsOf(args)| && (ret.InMemory? ==> retvalPtr == pointer)
    {
      hide Slot, WordsOf, ToRegs, FromRegs, Valid, Stored;
      regOffset, retvalPtr := 0, 0;
      if ret.InMemory? {
        var p;
        p, regOffset := ReadNextArg(0, regs[SP], KPointer);
        PointerRead(State(), p, pointer);
        retvalPtr := p.value;
      }
      values, regOffset := ReadArgs(regOffset, regs[SP], kinds, args);
    }

    /** What the host function did, and then its result. */
    method WriteResult(out: (Ret, Machine), ret: RetType, retvalPtr: nat)
      requires Ok() && |out.1.regs| == 16 && HasType(out.0, ret)
      modifies regs, this`mem
      ensures Ok() && State() == Returned(out.1, out.0, retvalPtr)
      ensures !ret.InMemory? ==> forall p: int :: Returned(out.1, out.0, p) == Returned(out.1, out.0, retvalPtr)
    {
      TypeOf(out.0, ret);
      hide ToRegs, SetSlots, HasType, Valid;
      BecomeMachine(out.1);
      match out.0
      case Bytes(bytes) => mem := Put(mem, retvalPtr, bytes);
      case Value(value) => WriteRegs(ToRegs(value));
      case Nothing =>
    }

    /** Words that fit the registers. */
    method WriteRegs(words: seq<nat>)
      requires Ok() && |words| <= 2 && forall i | 0 <= i < |words| :: words[i] < WORD
      modifies regs, this`mem
      ensures Ok() && State() == SetSlots(old(State()), 0, 0, words)
    {
      hide SetSlot;
      ghost var m := State();
      assert m == SetSlots(m, 0, 0, words[..0]);
      for i := 0 to |words|
        invariant Ok() && State() == SetSlots(m, 0, 0, words[..i])
      {
        SetWord(0, i, words[i]);
        SlotsPush(m, 0, 0, words[..i], words[i]);
        assert words[..i] + [words[i]] == words[..i + 1];
      }
      assert words[..|words|] == words;
    }

    /** Calls a host function as if from the guest. The arguments reach it unchanged, its result
        comes back, and the stack pointer is as before; memory changes only where the call spills
        arguments and receives the result, and where the function changes it. */
    method CallFromHost(args: seq<Arg>, ret: RetType, host: HostFunction) returns (r: Ret)
      requires Ok() && AllValid(args) && IsHost(host, ret)
      requires HasRoom(State(), args, ret)
      modifies regs, this`mem
      ensures Ok() && r == host(args, WithArgs(old(State()), args, ret)).0
      ensures State().mem == Finished(old(State()), args, ret, host).mem && regs[SP] == old(regs[SP])
      ensures forall k | 4 <= k < 16 && k != SP :: regs[k] == host(args, WithArgs(old(State()), args, ret)).1.regs[k]
    {
      hide Slot, WordsOf, ToRegs, FromRegs, Valid, Stored, HasType, SetSlots, Returned, Room, Called, HasRoom, SetSlot, WithArgs;
      ghost var m := State();
      RoomIsEnough(m, args, ret);
      var oldSp, retvalPtr := PlaceArgs(args, ret);
      ArgsArrive(m, args, ret);
      CallFromGuest(Kinds(args), ret, host, args, m.regs[SP] - HiddenSize(ret));
      ghost var m3 := WithArgs(m, args, ret);
      ghost var out := host(args, m3);
      assert Returns(out, m3, ret);
      assert State() == Finished(m, args, ret, host);
      KeysOfArgs(m, args, ret);
      ResultArrives(m, args, ret, out.1, out.0);
      r := ReceiveResult(ret, oldSp, retvalPtr, out.0);
    }

    /** Makes room for the result and the arguments, and writes the hidden pointer and the arguments. */
    method PlaceArgs(args: seq<Arg>, ret: RetType) returns (oldSp: nat, retvalPtr: nat)
      requires Ok() && AllValid(args) && CallLow(State(), args, ret) >= 0 && regs[SP] < WORD
      modifies regs, this`mem
      ensures Ok() && State() == WithArgs(old(State()), args, ret)
      ensures oldSp == old(regs[SP]) - HiddenSize(ret) && retvalPtr == oldSp
    {
      hide WordsOf, ToRegs, SetSlots, SetSlot, Valid;
      ghost var m := State();
      WordCount(args);
      var sum := RegCountSum(Kinds(args));
      var regOffset := 0;
      retvalPtr := regs[SP];
      if ret.InMemory? {
        regs[SP] := regs[SP] - ret.size;
        retvalPtr := regs[SP];
        PointerWords(retvalPtr);
        OneSlot(State(), retvalPtr, 0, retvalPtr);
        regOffset := WriteNextArg(regOffset, Arg(KPointer, retvalPtr));
      }
      oldSp := ExtendStackForArgs(sum);
      assert State() == Prepared(m, args, ret);
      regOffset := WriteArgs(regOffset, args);
    }

    /** Drops the spilled arguments and the result buffer, and reads the result. */
    method ReceiveResult(ret: RetType, oldSp: nat, retvalPtr: nat, ghost expected: Ret) returns (r: Ret)
      requires Ok() && HasArrived(State(), ret, retvalPtr, expected)
      modifies regs
      ensures Ok() && r == expected && regs[..] == old(regs[..])[SP := oldSp + HiddenSize(ret)]
    {
      hide Slot, FromRegs;
      ghost var m4 := State();
      regs[SP] := oldSp;
      RegisterSlots(m4, State());
      match ret
      case InMemory(size) =>
        regs[SP] := regs[SP] + size;
        r := Bytes(Get(mem, retvalPtr, size));
      case InRegisters(kind) =>
        assert RegCount(kind) == 1 || RegCount(kind) == 2;
        var value, next := ReadNextArg(0, 0, kind);
        r := Value(value);
      case Void =>
        r := Nothing;
    }

    /** Calls a guest function; `run` is whatever its code does until it returns to the host, and
        `entry` the machine it starts with. The stack pointer, the frame pointer, the return
        address and the program counter come back whatever the code does to them. */
    method CallGuestFunction(target: nat, returnRoutine: nat, args: seq<Arg>, kind: Option<Kind>, run: Machine -> Machine)
        returns (r: Option<Arg>, ghost entry: Machine)
      requires Ok() && AllValid(args) && forall m: Machine :: |run(m).regs| == 16
      requires regs[FP] < WORD && regs[LR] < WORD && HasFrameRoom(State(), args)
      modifies regs, this`mem
      ensures Ok() && Entered(entry, old(State()), target, returnRoutine, args) && mem == run(entry).mem
      ensures regs[SP] == old(regs[SP]) && regs[FP] == old(regs[FP]) && regs[LR] == old(regs[LR]) && regs[PC] == old(regs[PC])
      ensures r == if kind.None? then None else Some(FromRegs(kind.value, SlotsOf(run(entry), 0, 0, RegCount(kind.value))))
      ensures r.Some? && RegistersAreWords(run(entry)) ==>
        var regs := run(entry).regs;
        IsRead(r.value, kind.value, if Is64Bit(kind.value) then regs[0] + 0x1_0000_0000 * regs[1] else regs[0])
    {
      hide Slot, IsRead, FromRegs, Valid, HasFrameRoom, Entered;
      var oldPc, oldLr, oldSp, oldFp := regs[PC], regs[LR], regs[SP], regs[FP];
      EnterGuestFunction(target, returnRoutine, args);
      entry := State();
      var after := run(State());
      BecomeMachine(after);
      regs[PC] := oldPc;
      regs[LR] := oldLr;
      regs[SP] := oldSp;
      regs[FP] := oldFp;
      RegisterSlots(after, State());
      if kind.None? { return None, entry; }
      if RegistersAreWords(after) { PassedIsRead(after, 0, 0, kind.value); }
      assert RegCount(kind.value) == 1 || RegCount(kind.value) == 2;
      var value, at := ReadNextArg(0, 0, kind.value);
      r := Some(value);
    }

    /** A frame with the old frame pointer and return address, and then the arguments. */
    method EnterGuestFunction(target: nat, returnRoutine: nat, args: seq<Arg>)
      requires Ok() && AllValid(args) && regs[FP] < WORD && regs[LR] < WORD && HasFrameRoom(State(), args)
      modifies regs, this`mem
      ensures Ok() && Entered(State(), old(State()), target, returnRoutine, args)
    {
      hide WordsOf, SetSlots, HasFrameRoom, Word4, ToLe, Put, Entered;
      ghost var m := State();
      var oldLr, oldFp := regs[LR], regs[FP];
      regs[PC], regs[LR] := target, returnRoutine;
      SameFrameRoom(m, State(), args);
      PushFrame(oldFp, oldLr, args);
      WordCount(args);
      var before := ExtendStackForArgs(RegCountSum(Kinds(args)));
      ghost var m2 := State();
      var next := WriteArgs(0, args);
      FrameThenArgs(m, m2, target, returnRoutine, args);
    }

    /** A stack frame: the old frame pointer, and the address to return to. */
    method PushFrame(oldFp: nat, oldLr: nat, ghost args: seq<Arg>)
      requires Ok() && oldFp < WORD && oldLr < WORD && HasFrameRoom(State(), args)
      modifies regs, this`mem
      ensures Ok() && regs[..] == old(regs[..])[SP := old(regs[SP]) - 8][FP := old(regs[SP]) - 8]
      ensures mem.Keys == old(mem).Keys && regs[SP] - Spill(|WordsOf(args)|) >= 0
      ensures Word4(mem, regs[FP]) == oldFp && Word4(mem, regs[FP] + 4) == oldLr
      ensures mem == Put(Put(old(mem), regs[SP], ToLe(oldFp, 4)), regs[SP] + 4, ToLe(oldLr, 4))
    {
      hide HasFrameRoom, ToLe, Word4, Put;
      FrameRoom(State(), args);
      FrameWritten(mem, regs[SP] - 8, oldFp, oldLr);
      regs[SP] := regs[SP] - 8;
      regs[FP] := regs[SP];
      mem := Put(mem, regs[SP], ToLe(oldFp, 4));
      mem := Put(mem, regs[SP] + 4, ToLe(oldLr, 4));
    }

    method BecomeMachine(m: Machine)
      requires Ok() && |m.regs| == 16
      modifies regs, this`mem
      ensures Ok() && State() == m
    {
      for k := 0 to 16
        invariant Ok() && forall i | 0 <= i < k :: regs[i] == m.regs[i]
      {
        regs[k] := m.regs[k];
      }
      mem := m.mem;
    }
  }

  /** Variable arguments: the rest of the slots, or a list in memory, one argument at a time. */
  class VaList {
    var regOffset: nat
    var stackPointer: nat

    /** What follows the fixed arguments of a call. */
    constructor Start(regOffset: nat, stackPointer: nat)
      ensures this.regOffset == regOffset && this.stackPointer == stackPointer
    {
      this.regOffset, this.stackPointer := regOffset, stackPointer;
    }

    /** A va_list argument is a pointer to words in memory: those of the stack slots. */
    constructor FromPointer(pointer: nat)
      ensures regOffset == 4 && stackPointer == pointer
    {
      regOffset, stackPointer := 4, pointer;
    }

    /** The next argument: the first of those that are stored there, and then the others are. */
    method Next(env: Environment, kind: Kind, ghost args: seq<Arg>) returns (arg: Arg)
      requires env.Ok()
      modifies this`regOffset
      ensures regOffset == old(regOffset) + RegCount(kind)
      ensures RegistersAreWords(env.State()) && HasWords(env.State(), stackPointer, old(regOffset), kind) ==>
        IsRead(arg, kind, Passed(env.State(), stackPointer, old(regOffset), kind))
      ensures args != [] && args[0].kind == kind && AllValid(args) && Stored(env.State(), stackPointer, old(regOffset), WordsOf(args)) ==>
        arg == args[0] && Stored(env.State(), stackPointer, regOffset, WordsOf(args[1..]))
    {
      hide Slot, WordsOf, ToRegs, FromRegs, Valid, Stored, IsRead, Passed, HasWords, RegistersAreWords;
      if args != [] && AllValid(args) && Stored(env.State(), stackPointer, regOffset, WordsOf(args)) {
        assert args[0..] == args;
        NextIsStored(env.State(), stackPointer, regOffset, args, 0);
      }
      arg, regOffset := env.ReadNextArg(regOffset, stackPointer, kind);
    }
  }

  lemma {:induction false} WordsConcat(a: seq<Arg>, b: seq<Arg>)
    ensures WordsOf(a + b) == WordsOf(a) + WordsOf(b)
    decreases |a|
  {
    hide ToRegs;
    if a == [] {
      assert [] + b == b;
    } else {
      WordsConcat(a[1..], b);
      assert (a + b)[0] == a[0] && (a + b)[1..] == a[1..] + b;
    }
  }

  /** Where the fixed arguments end, the variable ones begin. */
  lemma VariableArgsFollow(m: Machine, sp: int, from: nat, fixed: seq<Arg>, variable: seq<Arg>)
    requires |m.regs| == 16 && Stored(m, sp, from, WordsOf(fixed + variable))
    ensures Stored(m, sp, from, WordsOf(fixed)) && Stored(m, sp, from + |WordsOf(fixed)|, WordsOf(variable))
  {
    hide WordsOf, Slot;
    WordsConcat(fixed, variable);
    StoredParts(m, sp, from, WordsOf(fixed), WordsOf(variable));
    forall i | 0 <= i < |WordsOf(fixed)| ensures Slot(m, sp, from + i) == WordsOf(fixed)[i] {
      assert SlotsOf(m, sp, from, |WordsOf(fixed)|)[i] == WordsOf(fixed)[i];
    }
  }

  /** Arguments of the given kinds, read one after the other. */
  function ReadList(m: Machine, sp: int, from: nat, kinds: seq<Kind>): seq<Arg>
    requires |m.regs| == 16
    decreases |kinds|
  {
    if kinds == [] then []
    else [FromRegs(kinds[0], SlotsOf(m, sp, from, RegCount(kinds[0])))] + ReadList(m, sp, from + RegCount(kinds[0]), kinds[1..])
  }

  lemma {:induction false} ListReads(m: Machine, sp: int, from: nat, args: seq<Arg>)
    requires |m.regs| == 16 && AllValid(args) && Stored(m, sp, from, WordsOf(args))
    ensures ReadList(m, sp, from, Kinds(args)) == args
    decreases |args|
  {
    hide Slot, WordsOf, ToRegs, FromRegs, Valid, Stored;
    if args != [] {
      assert args[0..] == args;
      NextIsStored(m, sp, from, args, 0);
      ListReads(m, sp, from + RegCount(args[0].kind), args[1..]);
      assert Kinds(args)[1..] == Kinds(args[1..]);
      assert args == [args[0]] + args[1..];
    }
  }

  /** The fixed arguments of a call are in place, and the variable ones behind them. */
  lemma FixedPart(m: Machine, kinds: seq<Kind>, ret: RetType, args: seq<Arg>, variable: seq<Arg>, pointer: nat)
    requires |m.regs| == 16 && Called(m, kinds + Kinds(variable), ret, args + variable, pointer) && Kinds(args) == kinds
    ensures Called(m, kinds, ret, args, pointer)
    ensures Stored(m, m.regs[SP], HiddenWords(ret) + |WordsOf(args)|, WordsOf(variable))
  {
    hide WordsOf, Slot, Stored, Valid;
    VariableArgsFollow(m, m.regs[SP], HiddenWords(ret), args, variable);
    forall i | 0 <= i < |args| ensures Valid(args[i]) { assert Valid((args + variable)[i]); }
  }

  /** A function that reads a list of variable arguments of certain kinds and then does its work. */
  function ReadingList(body: (seq<Arg>, seq<Arg>, Machine) -> (Ret, Machine), kinds: seq<Kind>): VariadicFunction {
    (fixed: seq<Arg>, from: nat, sp: nat, m: Machine) => if |m.regs| == 16 then body(fixed, ReadList(m, sp, from, kinds), m) else (Nothing, m)
  }

  /** Wherever the list begins, the function works on the arguments that were passed. */
  lemma VariadicGetsItsArgs(m: Machine, from: nat, sp: nat, fixed: seq<Arg>, variable: seq<Arg>,
      body: (seq<Arg>, seq<Arg>, Machine) -> (Ret, Machine))
    requires |m.regs| == 16 && AllValid(variable) && Stored(m, sp, from, WordsOf(variable))
    ensures ReadingList(body, Kinds(variable))(fixed, from, sp, m) == body(fixed, variable, m)
  {
    ListReads(m, sp, from, variable);
  }

  lemma SlotsPush(m: Machine, sp: int, from: nat, w: seq<nat>, x: nat)
    requires |m.regs| == 16
    ensures SetSlots(m, sp, from, w + [x]) == SetSlot(SetSlots(m, sp, from, w), sp, from + |w|, x)
  {
    hide SetSlot;
    SlotsConcat(m, sp, from, w, [x]);
    assert SetSlots(SetSlots(m, sp, from, w), sp, from + |w|, [x])
        == SetSlots(SetSlot(SetSlots(m, sp, from, w), sp, from + |w|, x), sp, from + |w| + 1, [x][1..]);
  }

  lemma NoWordsWritten(m: Machine, sp: int, from: nat)
    requires |m.regs| == 16
    ensures WordsOf([]) == [] && SetSlots(m, sp, from, []) == m
  {}

  lemma NoWordsOf(args: seq<Arg>, m: Machine, sp: int, from: nat)
    requires |m.regs| == 16
    ensures WordsOf(args[..0]) == [] && args[0..] == args && args[..0] == []
  {}

  /** The next argument is in its slots, and the others are behind it. */
  lemma NextIsStored(m: Machine, sp: int, at: nat, args: seq<Arg>, i: nat)
    requires |m.regs| == 16 && i < |args| && AllValid(args) && Stored(m, sp, at, WordsOf(args[i..]))
    ensures FromRegs(args[i].kind, SlotsOf(m, sp, at, RegCount(args[i].kind))) == args[i]
    ensures Stored(m, sp, at + RegCount(args[i].kind), WordsOf(args[i + 1..]))
  {
    hide Slot, Stored, ToRegs, FromRegs;
    assert args[i..][0] == args[i] && args[i..][1..] == args[i + 1..];
    StoredParts(m, sp, at, ToRegs(args[i]), WordsOf(args[i + 1..]));
    assert Valid(args[i]);
    ArgRoundTrip(args[i]);
  }

  /** A call in progress: the hidden pointer, if there is one, and the arguments are in place. */
  predicate Called(m: Machine, kinds: seq<Kind>, ret: RetType, args: seq<Arg>, pointer: nat)
    requires |m.regs| == 16
  {
    && Kinds(args) == kinds && AllValid(args)
    && (ret.InMemory? ==> Slot(m, m.regs[SP], 0) == pointer)
    && Stored(m, m.regs[SP], if ret.InMemory? then 1 else 0, WordsOf(args))
  }

  lemma PointerRead(m: Machine, p: Arg, pointer: nat)
    requires |m.regs| == 16 && p == FromRegs(KPointer, SlotsOf(m, m.regs[SP], 0, 1))
    ensures p.value == Slot(m, m.regs[SP], 0) >= 0
  {}

  lemma TypeOf(r: Ret, t: RetType)
    requires HasType(r, t)
    ensures (r.Bytes? <==> t.InMemory?) && (r.Value? <==> t.InRegisters?)
  {}

  // ---- What a call from the host does ----

  function Spill(sum: nat): nat { if sum > 4 then 4 * (sum - 4) else 0 }

  function HiddenSize(ret: RetType): nat { if ret.InMemory? then ret.size else 0 }

  function HiddenWords(ret: RetType): nat { if ret.InMemory? then 1 else 0 }

  /** The memory that the call may write starts here ... */
  function CallLow(m: Machine, args: seq<Arg>, ret: RetType): int
    requires |m.regs| == 16
  {
    m.regs[SP] - HiddenSize(ret) - Spill(|WordsOf(args)|)
  }

  /** ... and ends here: at the caller's stack pointer, unless the spill area, which is sized without
      the hidden pointer, reaches over a result of less than a word. */
  function CallTop(m: Machine, args: seq<Arg>, ret: RetType): int
    requires |m.regs| == 16
  {
    if ret.InMemory? && |WordsOf(args)| >= 4 && ret.size < 4 then m.regs[SP] - ret.size + 4 else m.regs[SP]
  }

  predicate HasRoom(m: Machine, args: seq<Arg>, ret: RetType) {
    && |m.regs| == 16 && CallLow(m, args, ret) >= 0 && m.regs[SP] < WORD
    && Mapped(m.mem, CallLow(m, args, ret), CallTop(m, args, ret) - CallLow(m, args, ret))
  }

  /** The hidden pointer in r0, and the stack pointer lowered. */
  function Prepared(m: Machine, args: seq<Arg>, ret: RetType): (m': Machine)
    requires |m.regs| == 16 && CallLow(m, args, ret) >= 0
    ensures |m'.regs| == 16 && m'.mem == m.mem && m'.regs[SP] == CallLow(m, args, ret)
  {
    var regs := if ret.InMemory? then m.regs[0 := m.regs[SP] - ret.size] else m.regs;
    m.(regs := regs[SP := CallLow(m, args, ret)])
  }

  function WithArgs(m: Machine, args: seq<Arg>, ret: RetType): (m': Machine)
    requires |m.regs| == 16 && CallLow(m, args, ret) >= 0
    ensures |m'.regs| == 16 && m'.regs[SP] == CallLow(m, args, ret)
  {
    SetSlots(Prepared(m, args, ret), CallLow(m, args, ret), HiddenWords(ret), WordsOf(args))
  }

  /** The machine when the host function has returned. */
  function Finished(m: Machine, args: seq<Arg>, ret: RetType, host: HostFunction): (m': Machine)
    requires |m.regs| == 16 && CallLow(m, args, ret) >= 0 && |host(args, WithArgs(m, args, ret)).1.regs| == 16
    ensures |m'.regs| == 16
  {
    var out := host(args, WithArgs(m, args, ret));
    Returned(out.1, out.0, m.regs[SP] - HiddenSize(ret))
  }

  /** The same for a function that leaves the machine alone and returns r. */
  function Spilled(m: Machine, args: seq<Arg>, ret: RetType, r: Ret): (m': Machine)
    requires |m.regs| == 16 && CallLow(m, args, ret) >= 0
    ensures |m'.regs| == 16
  {
    Returned(WithArgs(m, args, ret), r, m.regs[SP] - HiddenSize(ret))
  }

  lemma RoomIsEnough(m: Machine, args: seq<Arg>, ret: RetType)
    requires HasRoom(m, args, ret)
    ensures CallLow(m, args, ret) >= 0 && m.regs[SP] < WORD
    ensures Room(Prepared(m, args, ret), CallLow(m, args, ret), HiddenWords(ret) + |WordsOf(args)|)
    ensures ret.InMemory? ==> Mapped(m.mem, m.regs[SP] - ret.size, ret.size)
  {}

  lemma KeysOfArgs(m: Machine, args: seq<Arg>, ret: RetType)
    requires |m.regs| == 16 && CallLow(m, args, ret) >= 0
    ensures WithArgs(m, args, ret).mem.Keys == m.mem.Keys
  {}

  lemma PointerWords(p: nat)
    requires p < WORD
    ensures ToRegs(Arg(KPointer, p)) == [p]
  {}

  lemma OneSlot(m: Machine, sp: int, j: nat, x: nat)
    requires |m.regs| == 16 && j < 4
    ensures SetSlots(m, sp, j, [x]) == m.(regs := m.regs[j := x])
  {
    assert [x][1..] == [];
  }

  /** The call finds the pointer and the arguments in their places. */
  lemma ArgsArrive(m: Machine, args: seq<Arg>, ret: RetType)
    requires |m.regs| == 16 && CallLow(m, args, ret) >= 0 && HasRoom(m, args, ret) && AllValid(args)
    ensures Called(WithArgs(m, args, ret), Kinds(args), ret, args, m.regs[SP] - HiddenSize(ret))
  {
    hide SetSlots, WordsOf, HasRoom, Room;
    RoomIsEnough(m, args, ret);
    SlotsSet(Prepared(m, args, ret), CallLow(m, args, ret), HiddenWords(ret), WordsOf(args), HiddenWords(ret) + |WordsOf(args)|);
  }

  /** The result is where its type says. */
  predicate HasArrived(m: Machine, ret: RetType, pointer: int, r: Ret)
    requires |m.regs| == 16
  {
    match ret
    case InMemory(size) => Mapped(m.mem, pointer, size) && r == Bytes(Get(m.mem, pointer, size))
    case InRegisters(kind) => r == Value(FromRegs(kind, SlotsOf(m, 0, 0, RegCount(kind))))
    case Void => r == Nothing
  }

  /** A result in registers: the low half in r0, the high half of 64 bits in r1, the rest untouched. */
  lemma ResultInRegisters(m: Machine, value: Arg, pointer: int)
    requires |m.regs| == 16
    ensures var m' := Returned(m, Value(value), pointer);
      && m'.mem == m.mem && (forall j | 2 <= j < 16 :: m'.regs[j] == m.regs[j])
      && if Is64Bit(value.kind) then
           m'.regs[0] < 0x1_0000_0000 && m'.regs[0] + 0x1_0000_0000 * m'.regs[1] == value.value % 0x1_0000_0000_0000_0000
         else m'.regs[0] == value.value % 0x1_0000_0000 && m'.regs[1] == m.regs[1]
  {
    hide ToRegs;
    var w := ToRegs(value);
    WordsOfArg(value);
    assert SetSlots(m, 0, 0, w) == SetSlots(m.(regs := m.regs[0 := w[0]]), 0, 1, w[1..]);
    if Is64Bit(value.kind) {
      assert w[1..] == [w[1]];
      OneSlot(m.(regs := m.regs[0 := w[0]]), 0, 1, w[1]);
    }
  }

  /** The caller finds the result in its place. */
  lemma ResultArrives(m: Machine, args: seq<Arg>, ret: RetType, m3: Machine, r: Ret)
    requires HasRoom(m, args, ret) && HasType(r, ret) && |m3.regs| == 16 && m3.mem.Keys == m.mem.Keys
    ensures HasArrived(Returned(m3, r, m.regs[SP] - HiddenSize(ret)), ret, m.regs[SP] - HiddenSize(ret), r)
  {
    RoomIsEnough(m, args, ret);
    hide WordsOf, HasRoom;
    match r
    case Bytes(bytes) =>
      SameKeysMapped(m.mem, m3.mem, m.regs[SP] - ret.size, ret.size);
      GetPutSame(m3.mem, m.regs[SP] - ret.size, bytes);
    case Value(value) => ValueArrives(m3, value);
    case Nothing =>
  }

  /** Register slots do not depend on the stack pointer. */
  lemma RegisterSlots(m: Machine, m': Machine)
    requires |m.regs| == |m'.regs| == 16 && forall j | 0 <= j < 4 :: m'.regs[j] == m.regs[j]
    ensures SlotsOf(m', 0, 0, 1) == SlotsOf(m, 0, 0, 1) && SlotsOf(m', 0, 0, 2) == SlotsOf(m, 0, 0, 2)
  {}

  lemma SameKeysMapped(b: Bytes, b': Bytes, a: int, n: nat)
    requires b'.Keys == b.Keys && Mapped(b, a, n)
    ensures Mapped(b', a, n)
  {
    forall k | a <= k < a + n ensures k in b' { assert k in b.Keys; }
  }

  lemma ValueArrives(m: Machine, value: Arg)
    requires |m.regs| == 16 && Valid(value)
    ensures FromRegs(value.kind, SlotsOf(SetSlots(m, 0, 0, ToRegs(value)), 0, 0, RegCount(value.kind))) == value
  {
    hide Slot, ToRegs, FromRegs, SetSlot;
    var w := ToRegs(value);
    SlotsSet(m, 0, 0, w, 2);
    assert w + [] == w;
    StoredParts(SetSlots(m, 0, 0, w), 0, 0, w, []);
    ArgRoundTrip(value);
  }

  /** Outside its own part of the stack, and what the function itself changes, a call changes no
      memory. */
  lemma CallFrame(m: Machine, args: seq<Arg>, ret: RetType, host: HostFunction, k: int)
    requires HasRoom(m, args, ret) && IsHost(host, ret) && k in m.mem
    requires !(CallLow(m, args, ret) <= k < CallTop(m, args, ret))
    ensures k in WithArgs(m, args, ret).mem && WithArgs(m, args, ret).mem[k] == m.mem[k]
    ensures var out := host(args, WithArgs(m, args, ret));
      k in out.1.mem && k in Finished(m, args, ret, host).mem && Finished(m, args, ret, host).mem[k] == out.1.mem[k]
  {
    hide WordsOf;
    var p, low, m3 := Prepared(m, args, ret), CallLow(m, args, ret), WithArgs(m, args, ret);
    SlotsFrame(p, low, HiddenWords(ret), WordsOf(args), k);
    assert k in m.mem.Keys && k in m3.mem.Keys;
    var out := host(args, m3);
    assert Returns(out, m3, ret) && k in out.1.mem.Keys;
    if out.0.Value? {
      SlotsFrame(out.1, 0, 0, ToRegs(out.0.value), k);
      assert k in Finished(m, args, ret, host).mem.Keys;
    }
  }

  /** A function that returns r and does nothing else. */
  function Constantly(r: Ret): HostFunction { (a, m) => (r, m) }

  lemma {:induction false} ToLeOfFromLe(s: seq<Byte>)
    ensures ToLe(FromLe(s), |s|) == s
    decreases |s|
  {
    if s != [] {
      ToLeOfFromLe(s[1..]);
      var v := FromLe(s);
      assert v % 256 == s[0] && v / 256 == FromLe(s[1..]);
      assert s == [s[0]] + s[1..];
    }
  }

  /** A call keeps all memory at or above the caller's stack pointer, unless the result is in
      memory, shorter than a word, and there are four or more argument words. Then the last of
      those words is written over the caller's memory. */
  lemma CallerMemory(m: Machine, args: seq<Arg>, ret: RetType, r: Ret)
    requires |m.regs| == 16 && CallLow(m, args, ret) >= 0 && HasRoom(m, args, ret) && HasType(r, ret)
    ensures var small := ret.InMemory? && |WordsOf(args)| >= 4 && ret.size < 4;
      var m', sp, w := Spilled(m, args, ret, r), m.regs[SP], WordsOf(args);
      && (!small ==> forall k | k in m.mem && k >= sp :: m'.mem[k] == m.mem[k])
      && (small ==> forall k | sp <= k < sp - ret.size + 4 :: k in m'.mem && m'.mem[k] == ToLe(w[|w| - 1], 4)[k - (sp - ret.size)])
  {
    hide HasRoom;
    var sp := m.regs[SP];
    forall k | k in m.mem && k >= CallTop(m, args, ret) ensures Spilled(m, args, ret, r).mem[k] == m.mem[k] {
      CallFrame(m, args, ret, Constantly(r), k);
    }
    if ret.InMemory? && |WordsOf(args)| >= 4 && ret.size < 4 { LastWordSpills(m, args, ret, r); }
  }

  /** A stack at 0x100, in zeroed memory. */
  function ZeroStack(): Machine { Machine(seq(16, i => if i == SP then 0x100 else 0), Zeros(0xf0, 0x20)) }

  /** Four words and a result of two bytes: the upper half of the last word is written over the
      caller's memory. */
  lemma CallerMemoryOverwritten()
    ensures var args, ret := [Arg(KU32, 1), Arg(KU32, 2), Arg(KU32, 3), Arg(KU32, 0x4030201)], InMemory(2);
      && HasRoom(ZeroStack(), args, ret) && CallLow(ZeroStack(), args, ret) >= 0
      && 0x100 in Spilled(ZeroStack(), args, ret, Bytes([0, 0])).mem
      && ZeroStack().mem[0x100] == 0 && Spilled(ZeroStack(), args, ret, Bytes([0, 0])).mem[0x100] == 3
  {
    hide WordsOf, ToLe, Spilled;
    var m, args, ret := ZeroStack(), [Arg(KU32, 1), Arg(KU32, 2), Arg(KU32, 3), Arg(KU32, 0x4030201)], InMemory(2);
    FourWords(args);
    assert CallLow(m, args, ret) == 0xfe && CallTop(m, args, ret) == 0x102;
    CallerMemory(m, args, ret, Bytes([0, 0]));
    ThirdByte(0x4030201);
    assert 0x100 in Spilled(m, args, ret, Bytes([0, 0])).mem;
  }

  lemma ThirdByte(v: nat)
    ensures ToLe(v, 4)[2] == v / 0x1_0000 % 0x100
  {
    hide ToLe;
    LowByteFirst(v, 4);
    LowByteFirst(v / 0x100, 3);
    LowByteFirst(v / 0x1_0000, 2);
  }

  lemma LowByteFirst(v: nat, n: nat)
    requires n > 0
    ensures ToLe(v, n) == [v % 0x100] + ToLe(v / 0x100, n - 1)
  {}

  lemma FourWords(args: seq<Arg>)
    requires |args| == 4 && forall i | 0 <= i < 4 :: args[i].kind == KU32 && Valid(args[i])
    ensures |WordsOf(args)| == 4 && WordsOf(args)[3] == args[3].value
  {
    assert WordsOf(args[4..]) == [];
    assert WordsOf(args[3..]) == ToRegs(args[3]) + WordsOf(args[3..][1..]) && args[3..][1..] == args[4..];
    assert WordsOf(args[2..]) == ToRegs(args[2]) + WordsOf(args[2..][1..]) && args[2..][1..] == args[3..];
    assert args[1..][1..] == args[2..];
  }

  lemma LastWordSpills(m: Machine, args: seq<Arg>, ret: RetType, r: Ret)
    requires HasRoom(m, args, ret) && HasType(r, ret) && ret.InMemory? && |WordsOf(args)| >= 4 && ret.size < 4
    ensures var m', a, w := Spilled(m, args, ret, r), m.regs[SP] - ret.size, WordsOf(args);
      forall k | a + ret.size <= k < a + 4 :: k in m'.mem && m'.mem[k] == ToLe(w[|w| - 1], 4)[k - a]
  {
    hide SetSlots, WordsOf, ToLe;
    var a, w, low, p := m.regs[SP] - ret.size, WordsOf(args), CallLow(m, args, ret), Prepared(m, args, ret);
    var m3 := WithArgs(m, args, ret);
    RoomIsEnough(m, args, ret);
    SlotsSet(p, low, 1, w, 1 + |w|);
    assert Slot(m3, low, 1 + (|w| - 1)) == w[|w| - 1];
    assert low + 4 * (|w| - 4) == a;
    assert Mapped(m3.mem, a, 4);
    ToLeOfFromLe(Get(m3.mem, a, 4));
  }

  // ---- Frames of guest calls ----

  predicate HasFrameRoom(m: Machine, args: seq<Arg>) {
    && |m.regs| == 16 && m.regs[SP] - 8 - Spill(|WordsOf(args)|) >= 0
    && Mapped(m.mem, m.regs[SP] - 8 - Spill(|WordsOf(args)|), 8 + Spill(|WordsOf(args)|))
  }

  /** What guest code finds when it is called: its arguments, the way back, and a frame that links
      to the caller's. */
  ghost predicate Entered(entry: Machine, m: Machine, target: nat, returnRoutine: nat, args: seq<Arg>)
    requires |m.regs| == 16
  {
    && |entry.regs| == 16 && entry.regs[PC] == target && entry.regs[LR] == returnRoutine
    && Called(entry, Kinds(args), Void, args, 0) && entry.regs[FP] + 8 == m.regs[SP]
    && Word4(entry.mem, entry.regs[FP]) == m.regs[FP] && Word4(entry.mem, entry.regs[FP] + 4) == m.regs[LR]
    && entry.regs[SP] == m.regs[SP] - 8 - Spill(|WordsOf(args)|)
    && (forall r | 4 <= r < 13 && r != FP :: entry.regs[r] == m.regs[r])
    && SameOutside(m.mem, entry.mem, entry.regs[SP], m.regs[SP])
  }

  /** Memory is the same but for a range. */
  ghost predicate SameOutside(b: Bytes, b': Bytes, lo: int, hi: int) {
    b'.Keys == b.Keys && forall k | k in b && !(lo <= k < hi) :: b'[k] == b[k]
  }

  lemma ArgsAreThere(m2: Machine, args: seq<Arg>)
    requires |m2.regs| == 16 && AllValid(args) && Room(m2, m2.regs[SP], |WordsOf(args)|)
    ensures Called(SetSlots(m2, m2.regs[SP], 0, WordsOf(args)), Kinds(args), Void, args, 0)
  {
    hide WordsOf, SetSlots, Slot, Valid, Room;
    SlotsSet(m2, m2.regs[SP], 0, WordsOf(args), |WordsOf(args)|);
  }

  lemma FrameThenArgs(m: Machine, m2: Machine, target: nat, returnRoutine: nat, args: seq<Arg>)
    requires HasFrameRoom(m, args) && |m.regs| == 16 && AllValid(args) && m.regs[SP] - 8 - Spill(|WordsOf(args)|) >= 0
    requires var a := m.regs[SP] - 8;
      && m2.regs == m.regs[PC := target][LR := returnRoutine][FP := a][SP := a - Spill(|WordsOf(args)|)]
      && m2.mem == Put(Put(m.mem, a, ToLe(m.regs[FP], 4)), a + 4, ToLe(m.regs[LR], 4)) && m2.mem.Keys == m.mem.Keys
      && Word4(m2.mem, a) == m.regs[FP] && Word4(m2.mem, a + 4) == m.regs[LR]
    ensures Entered(SetSlots(m2, m2.regs[SP], 0, WordsOf(args)), m, target, returnRoutine, args)
  {
    hide WordsOf, SetSlots, HasFrameRoom, Slot, Valid, Stored, SetSlot, Room, Word4, ToLe, Put, SameOutside, Called;
    FrameLeavesRoom(m, m2, args);
    ArgsAreThere(m2, args);
    FrameKept(m2, WordsOf(args), m.regs[SP] - 8);
    FrameOutside(m.mem, m.regs[SP] - 8, m.regs[FP], m.regs[LR], m2, WordsOf(args));
  }

  lemma FrameOutside(b0: Bytes, a: int, x: nat, y: nat, m2: Machine, w: seq<nat>)
    requires |m2.regs| == 16 && m2.mem == Put(Put(b0, a, ToLe(x, 4)), a + 4, ToLe(y, 4)) && m2.regs[SP] == a - Spill(|w|)
    ensures SameOutside(b0, SetSlots(m2, m2.regs[SP], 0, w).mem, m2.regs[SP], a + 8)
  {
    hide ToLe;
    var b', lo := SetSlots(m2, m2.regs[SP], 0, w).mem, m2.regs[SP];
    assert b'.Keys == m2.mem.Keys == b0.Keys;
    forall k | k in b0 && !(lo <= k < a + 8) ensures b'[k] == b0[k] {
      assert k in b0.Keys && k in m2.mem.Keys && m2.mem[k] == b0[k];
      SlotsFrame(m2, lo, 0, w, k);
    }
  }

  lemma SameFrameRoom(m: Machine, m': Machine, args: seq<Arg>)
    requires HasFrameRoom(m, args) && |m'.regs| == 16 && m'.regs[SP] == m.regs[SP] && m'.mem == m.mem
    ensures HasFrameRoom(m', args)
  {}

  lemma FrameRoom(m: Machine, args: seq<Arg>)
    requires HasFrameRoom(m, args)
    ensures m.regs[SP] - 8 - Spill(|WordsOf(args)|) >= 0 && Mapped(m.mem, m.regs[SP] - 8, 8)
  {}

  lemma WordWrittenAt(b: Bytes, a: int, x: nat)
    requires Mapped(b, a, 4) && x < WORD
    ensures Word4(Put(b, a, ToLe(x, 4)), a) == x
  {
    hide ToLe, FromLe, Put, Get, Mapped;
    GetPutSame(b, a, ToLe(x, 4));
    FourBytes();
    LeRoundTrip(x, 4);
  }

  lemma FourBytes()
    ensures Power256(4) == WORD
  {}

  lemma FrameWritten(b: Bytes, a: int, x: nat, y: nat)
    requires Mapped(b, a, 8) && x < WORD && y < WORD
    ensures var b' := Put(Put(b, a, ToLe(x, 4)), a + 4, ToLe(y, 4)); Word4(b', a) == x && Word4(b', a + 4) == y && b'.Keys == b.Keys
  {
    hide ToLe;
    var b1 := Put(b, a, ToLe(x, 4));
    WordWrittenAt(b, a, x);
    PutKeepsMapped(b, a, ToLe(x, 4), a + 4, 4);
    WordWrittenAt(b1, a + 4, y);
    PutKeepsMapped(b, a, ToLe(x, 4), a, 4);
    GetPutOther(b1, a + 4, ToLe(y, 4), a, 4);
  }

  lemma FrameLeavesRoom(m: Machine, m2: Machine, args: seq<Arg>)
    requires HasFrameRoom(m, args) && |m2.regs| == 16 && m2.mem.Keys == m.mem.Keys
    requires m2.regs[SP] == m.regs[SP] - 8 - Spill(|WordsOf(args)|)
    ensures Room(m2, m2.regs[SP], |WordsOf(args)|) && Mapped(m2.mem, m.regs[SP] - 8, 8)
  {
    SameKeysMapped(m.mem, m2.mem, m2.regs[SP], 8 + Spill(|WordsOf(args)|));
  }

  lemma FrameKept(m2: Machine, w: seq<nat>, a: int)
    requires |m2.regs| == 16 && m2.regs[SP] + Spill(|w|) == a && Mapped(m2.mem, a, 8)
    ensures var m3 := SetSlots(m2, m2.regs[SP], 0, w);
      Word4(m3.mem, a) == Word4(m2.mem, a) && Word4(m3.mem, a + 4) == Word4(m2.mem, a + 4)
  {
    hide SetSlots, Word4;
    var m3 := SetSlots(m2, m2.regs[SP], 0, w);
    FrameBytesKept(m2, w, a);
    SameWord4(m2.mem, m3.mem, a);
    SameWord4(m2.mem, m3.mem, a + 4);
  }

  lemma FrameBytesKept(m2: Machine, w: seq<nat>, a: int)
    requires |m2.regs| == 16 && m2.regs[SP] + Spill(|w|) == a && Mapped(m2.mem, a, 8)
    ensures var m3 := SetSlots(m2, m2.regs[SP], 0, w);
      forall k | a <= k < a + 8 :: k in m2.mem && k in m3.mem && m3.mem[k] == m2.mem[k]
  {
    hide SetSlots;
    var m3 := SetSlots(m2, m2.regs[SP], 0, w);
    forall k | a <= k < a + 8 ensures k in m2.mem && k in m3.mem && m3.mem[k] == m2.mem[k] {
      assert k in m2.mem.Keys && k in m3.mem.Keys;
      SlotsFrame(m2, m2.regs[SP], 0, w, k);
    }
  }

  lemma SameWord4(b: Bytes, b': Bytes, a: int)
    requires forall k | a <= k < a + 4 :: k in b && k in b' && b'[k] == b[k]
    ensures Word4(b', a) == Word4(b, a)
  {
    assert Get(b', a, 4) == Get(b, a, 4);
  }
}
