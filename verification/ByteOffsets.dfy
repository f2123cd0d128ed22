/** Lines as they are stored: UTF-8 (section 3 of RFC 3629), with wrap points as byte offsets. Byte
    offsets at character boundaries stand for numbers of characters, so that breaking at byte
    offsets is the breaking at characters that LineBreak is about. */
module ByteOffsets {
  import opened LineBreak

  predicate IsContinuation(b: nat) { 0x80 <= b < 0xc0 }

  function Encode(c: char): (b: seq<nat>)
    ensures 1 <= |b| <= 4 && !IsContinuation(b[0]) && forall i | 1 <= i < |b| :: IsContinuation(b[i])
  {
    var n := c as int;
    if n < 0x80 then [n]
    else if n < 0x800 then [0xc0 + n / 0x40, 0x80 + n % 0x40]
    else if n < 0x10000 then [0xe0 + n / 0x1000, 0x80 + n / 0x40 % 0x40, 0x80 + n % 0x40]
    else [0xf0 + n / 0x40000, 0x80 + n / 0x1000 % 0x40, 0x80 + n / 0x40 % 0x40, 0x80 + n % 0x40]
  }

  /** The forms of one to four bytes, each for the numbers too large for the one before, with the bits of
      the number in the low bits of the bytes. */
  lemma EncodedBits(c: char)
    ensures var b, n := Encode(c), c as int;
      && (|b| == 1 <==> n < 0x80) && (|b| == 1 ==> n == b[0])
      && (|b| == 2 <==> 0x80 <= n < 0x800)
      && (|b| == 2 ==> 0xc0 <= b[0] < 0xe0 && n == b[0] % 0x20 * 0x40 + b[1] % 0x40)
      && (|b| == 3 <==> 0x800 <= n < 0x10000)
      && (|b| == 3 ==> 0xe0 <= b[0] < 0xf0 && n == b[0] % 0x10 * 0x1000 + b[1] % 0x40 * 0x40 + b[2] % 0x40)
      && (|b| == 4 <==> n >= 0x10000)
      && (|b| == 4 ==> 0xf0 <= b[0] < 0xf8)
      && (|b| == 4 ==> n == b[0] % 8 * 0x40000 + b[1] % 0x40 * 0x1000 + b[2] % 0x40 * 0x40 + b[3] % 0x40)
  {
    var n := c as int;
    assert n < 0x110000;
    Digits(n);
    if 0x80 <= n < 0x800 {
      Lead(0xc0, 0x20, n / 0x40);
      Continuation(n);
    } else if 0x800 <= n < 0x10000 {
      Lead(0xe0, 0x10, n / 0x1000);
      Continuation(n / 0x40);
      Continuation(n);
    } else if 0x10000 <= n {
      Lead(0xf0, 8, n / 0x40000);
      Continuation(n / 0x1000);
      Continuation(n / 0x40);
      Continuation(n);
    }
  }

  lemma Digits(n: nat)
    ensures n == n / 0x40 * 0x40 + n % 0x40
    ensures n == n / 0x1000 * 0x1000 + n / 0x40 % 0x40 * 0x40 + n % 0x40
    ensures n == n / 0x40000 * 0x40000 + n / 0x1000 % 0x40 * 0x1000 + n / 0x40 % 0x40 * 0x40 + n % 0x40
  {
    TwoDigits(n, n / 0x40);
    TwoDigits(n / 0x40, n / 0x1000);
    TwoDigits(n / 0x1000, n / 0x40000);
  }

  lemma TwoDigits(n: nat, q: nat)
    requires q == n / 0x40
    ensures n == q * 0x40 + n % 0x40
  {}

  lemma Lead(mark: nat, width: nat, bits: nat)
    requires (mark == 0xc0 && width == 0x20) || (mark == 0xe0 && width == 0x10) || (mark == 0xf0 && width == 8)
    requires bits < width
    ensures (mark + bits) % width == bits
  {}

  lemma Continuation(n: nat)
    ensures (0x80 + n % 0x40) % 0x40 == n % 0x40
  {}

  function Utf8(s: string): seq<nat> { if s == [] then [] else Utf8(s[..|s| - 1]) + Encode(s[|s| - 1]) }

  /** Where the p-th character starts. */
  function Offset(s: string, p: nat): nat
    requires p <= |s|
  {
    |Utf8(s[..p])|
  }

  predicate IsCharBoundary(bytes: seq<nat>, i: nat) { i == |bytes| || (i < |bytes| && !IsContinuation(bytes[i])) }

  lemma {:induction false} Utf8Concat(a: string, b: string)
    ensures Utf8(a + b) == Utf8(a) + Utf8(b)
    decreases |b|
  {
    hide Encode;
    if b == [] {
      assert a + b == a;
    } else {
      Utf8Concat(a, b[..|b| - 1]);
      assert (a + b)[..|a + b| - 1] == a + b[..|b| - 1];
    }
  }

  /** The bytes between two character boundaries are the encoding of the characters between them. */
  lemma ByteSlice(s: string, lo: nat, hi: nat)
    requires lo <= hi <= |s|
    ensures Offset(s, lo) <= Offset(s, hi) <= |Utf8(s)| && Utf8(s)[Offset(s, lo)..Offset(s, hi)] == Utf8(s[lo..hi])
  {
    hide Utf8;
    assert s[..hi] == s[..lo] + s[lo..hi] && s == s[..hi] + s[hi..];
    Utf8Concat(s[..lo], s[lo..hi]);
    Utf8Concat(s[..hi], s[hi..]);
  }

  lemma {:induction false} CharsTakeBytes(s: string)
    ensures |Utf8(s)| >= |s|
  {
    if s != [] { CharsTakeBytes(s[..|s| - 1]); }
  }

  lemma OffsetsIncrease(s: string, p: nat, q: nat)
    requires p < q <= |s|
    ensures Offset(s, p) < Offset(s, q)
  {
    ByteSlice(s, p, q);
    CharsTakeBytes(s[p..q]);
  }

  lemma OffsetInPrefix(s: string, n: nat, p: nat)
    requires p <= n <= |s|
    ensures Offset(s[..n], p) == Offset(s, p)
  {
    assert s[..n][..p] == s[..p];
  }

  predicate StartsChar(s: string, i: nat) { exists p: nat | p <= |s| :: Offset(s, p) == i }

  lemma StartsInPrefix(s: string, n: nat, i: nat)
    requires n <= |s| && i < Offset(s, n)
    ensures StartsChar(s, i) <==> StartsChar(s[..n], i)
  {
    if StartsChar(s, i) {
      var p: nat :| p <= |s| && Offset(s, p) == i;
      if p > n { OffsetsIncrease(s, n, p); }
      if p <= n { OffsetInPrefix(s, n, p); }
    }
    if StartsChar(s[..n], i) {
      var p: nat :| p <= n && Offset(s[..n], p) == i;
      OffsetInPrefix(s, n, p);
    }
  }

  /** Character boundaries are exactly where characters start, or the text ends. */
  lemma {:induction false} BoundaryStartsChar(s: string, i: nat)
    requires i <= |Utf8(s)|
    ensures IsCharBoundary(Utf8(s), i) <==> StartsChar(s, i)
  {
    hide Encode, StartsChar, IsContinuation;
    var n := |s|;
    assert s[..n] == s;
    if i == |Utf8(s)| {
      StartsAt(s, n);
    } else {
      var m := Offset(s, n - 1);
      if i < m {
        BoundaryStartsChar(s[..n - 1], i);
        StartsInPrefix(s, n - 1, i);
      } else {
        if i == m { StartsAt(s, n - 1); } else { BetweenChars(s, n - 1, i); }
        assert Utf8(s)[i] == Encode(s[n - 1])[i - m];
      }
    }
  }

  lemma StartsAt(s: string, p: nat)
    requires p <= |s|
    ensures StartsChar(s, Offset(s, p))
  {}

  lemma BetweenChars(s: string, p: nat, i: nat)
    requires p < |s| && Offset(s, p) < i < Offset(s, p + 1)
    ensures !StartsChar(s, i)
  {
    if StartsChar(s, i) {
      var q: nat :| q <= |s| && Offset(s, q) == i;
      if q < p { OffsetsIncrease(s, q, p); }
      if q > p + 1 { OffsetsIncrease(s, p + 1, q); }
    }
  }

  function OffsetsOf(line: string, points: seq<nat>): (r: seq<nat>)
    requires forall i | 0 <= i < |points| :: points[i] <= |line|
    ensures |r| == |points| && forall i | 0 <= i < |r| :: r[i] == Offset(line, points[i])
  {
    seq(|points|, i requires 0 <= i < |points| => Offset(line, points[i]))
  }

  /** The characters whose offsets lie before a byte, the first one excepted. */
  ghost predicate PointsBefore(line: string, chars: seq<nat>, byte: nat) {
    Increasing(chars) && forall p: nat :: p in chars <==> 0 < p < |line| && Offset(line, p) < byte
  }

  lemma NextBoundary(line: string, chars: seq<nat>, byte: nat) returns (p: nat)
    requires PointsBefore(line, chars, byte) && 0 < byte < |Utf8(line)| && IsCharBoundary(Utf8(line), byte)
    ensures 0 < p < |line| && Offset(line, p) == byte && PointsBefore(line, chars + [p], byte + 1)
  {
    BoundaryStartsChar(line, byte);
    assert line[..|line|] == line;
    p :| p <= |line| && Offset(line, p) == byte;
    forall q | q in chars ensures q < p { if q > p { OffsetsIncrease(line, p, q); } }
    Pushed(chars, p);
    forall q: nat ensures q in chars + [p] <==> 0 < q < |line| && Offset(line, q) < byte + 1 {
      if p < q < |line| { OffsetsIncrease(line, p, q); }
      if q < p { OffsetsIncrease(line, q, p); }
    }
  }

  lemma NoBoundary(line: string, chars: seq<nat>, byte: nat)
    requires PointsBefore(line, chars, byte) && byte < |Utf8(line)| && !IsCharBoundary(Utf8(line), byte)
    ensures PointsBefore(line, chars, byte + 1)
  {
    BoundaryStartsChar(line, byte);
    forall q: nat | q < |line| ensures Offset(line, q) != byte { StartsAt(line, q); }
  }

  /** Wrapping at characters: the loop over the bytes finds exactly the offsets of the points where
      the line may be wrapped. */
  method CharWrapPoints(line: string) returns (points: seq<nat>, ghost chars: seq<nat>)
    ensures ArePoints(line, Char, chars) && (forall i | 0 <= i < |chars| :: chars[i] <= |line|) && points == OffsetsOf(line, chars)
  {
    hide Utf8, IsCharBoundary;
    var bytes := Utf8(line);
    points, chars := [], [];
    NothingBefore(line);
    var charEnd := 1;
    while charEnd < |bytes|
      invariant charEnd >= 1 && PointsBefore(line, chars, charEnd) && (forall i | 0 <= i < |chars| :: chars[i] <= |line|)
      invariant points == OffsetsOf(line, chars)
    {
      if IsCharBoundary(bytes, charEnd) {
        ghost var p := NextBoundary(line, chars, charEnd);
        points, chars := points + [charEnd], chars + [p];
      } else {
        NoBoundary(line, chars, charEnd);
      }
      charEnd := charEnd + 1;
    }
    AllPoints(line, chars, charEnd);
    points, chars := points + [|bytes|], chars + [|line|];
  }

  lemma NothingBefore(line: string)
    ensures PointsBefore(line, [], 1)
  {
    forall p: nat | 0 < p < |line| ensures Offset(line, p) >= 1 { OffsetsIncrease(line, 0, p); }
  }

  lemma AllPoints(line: string, chars: seq<nat>, byte: nat)
    requires PointsBefore(line, chars, byte) && byte >= |Utf8(line)|
    ensures ArePoints(line, Char, chars + [|line|]) && Offset(line, |line|) == |Utf8(line)|
  {
    assert line[..|line|] == line;
    forall p: nat | 0 < p < |line| ensures p in chars { OffsetsIncrease(line, p, |line|); }
    Pushed(chars, |line|);
  }
}
