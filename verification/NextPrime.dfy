/** The prime that libc++ asks for when it sizes a hash table. The search for the next prime ends
    because 3 * 2^30 + 1 is prime, which lies above every value the search starts from. */
module NextPrime {
  import opened Counting

  const MAX_REASONABLE := 0x4000_0000
  const PROTH := 0xC000_0001
  const U64_MAX := 0xFFFF_FFFF_FFFF_FFFF

  ghost predicate IsPrime(n: nat) { n >= 2 && forall d: nat | 2 <= d < n :: !Divides(d, n) }

  ghost predicate Divides(d: nat, n: int) { exists k: int :: n == Times(d, k) }

  function Times(a: int, b: int): int { a * b }

  ghost predicate NoPrimes(from: nat, to: nat) { forall n: nat | from <= n < to :: !IsPrime(n) }

  ghost predicate IsNextPrime(value: nat, p: nat) { value <= p && IsPrime(p) && NoPrimes(value, p) }

  lemma DividesMeansNoRemainder(d: nat, n: nat)
    requires d > 0
    ensures Divides(d, n) <==> n % d == 0
  {
    if n % d == 0 {
      assert n == Times(d, n / d);
    }
    if Divides(d, n) {
      var k :| n == Times(d, k);
      MultipleHasNoRemainder(d, k);
    }
  }

  lemma MultipleHasNoRemainder(d: nat, k: int)
    requires d > 0
    ensures (d * k) % d == 0
  {
    var r, c := (d * k) % d, (d * k) / d;
    assert r == d * (k - c);
    if k - c >= 1 { MulAtLeast(d, k - c); }
    if k - c <= -1 { MulAtLeast(d, c - k); }
  }

  lemma MulAtLeast(d: nat, k: int)
    requires k >= 1
    ensures d * k >= d
  {
    assert d * k == d + d * (k - 1);
  }

  // ---- Trial division ----

  /** A composite number has a divisor whose square is not above it. */
  lemma SmallDivisor(n: nat) returns (d: nat)
    requires n >= 2 && !IsPrime(n)
    ensures 2 <= d < n && Divides(d, n) && d * d <= n
  {
    d :| 2 <= d < n && Divides(d, n);
    var k :| n == Times(d, k);
    if d * d > n {
      assert k < d by { if k >= d { MulMonotone(d, d, k); } }
      assert k >= 2 by { if k <= 1 { MulMonotone(d, k, 1); } }
      assert n == Times(k, d);
      MulMonotone(k, k, d);
      d := k;
    }
  }

  lemma MulMonotone(x: nat, y: int, z: int)
    requires y <= z
    ensures x * y <= x * z
  {}

  lemma EvenDivisor(d: nat, n: nat)
    requires d % 2 == 0 && Divides(d, n)
    ensures n % 2 == 0
  {
    var k :| n == Times(d, k);
    assert n == 2 * ((d / 2) * k);
  }

  lemma QuotientBound(d: nat, n: nat)
    requires d > 0
    ensures d <= n / d <==> d * d <= n
  {
    assert n == d * (n / d) + n % d;
    if d <= n / d { MulMonotone(d, d, n / d); }
    if d > n / d { MulMonotone(d, n / d + 1, d); }
  }

  /** Odd trial division up to the square root decides primality. */
  method TrialDivision(value: nat) returns (prime: bool)
    ensures prime <==> IsPrime(value)
  {
    if value < 2 { return false; }
    if value == 2 { return true; }
    if value % 2 == 0 {
      DividesMeansNoRemainder(2, value);
      return false;
    }
    var divisor := 3;
    while divisor <= value / divisor
      invariant divisor >= 3 && divisor % 2 == 1
      invariant forall d: nat | 2 <= d < divisor :: !Divides(d, value)
      decreases value - divisor
    {
      QuotientBound(divisor, value);
      MulMonotone(divisor, 3, divisor);
      DividesMeansNoRemainder(divisor, value);
      if value % divisor == 0 { return false; }
      if Divides(divisor + 1, value) { EvenDivisor(divisor + 1, value); }
      divisor := divisor + 2;
    }
    QuotientBound(divisor, value);
    if !IsPrime(value) {
      var d := SmallDivisor(value);
      MulMonotone(d, divisor, d);
      MulMonotone(divisor, divisor, d);
    }
    return true;
  }

  // ---- Congruence ----

  ghost predicate Cong(a: int, b: int, q: nat) { Divides(q, a - b) }

  lemma CongTrans(a: int, b: int, c: int, q: nat)
    requires Cong(a, b, q) && Cong(b, c, q)
    ensures Cong(a, c, q) && Cong(c, a, q)
  {
    var k :| a - b == Times(q, k);
    var l :| b - c == Times(q, l);
    assert a - c == Times(q, k + l) && c - a == Times(q, -k - l);
  }

  lemma CongSame(a: int, q: nat)
    ensures Cong(a, a, q)
  {
    assert a - a == Times(q, 0);
  }

  lemma CongMul(a: int, b: int, c: int, d: int, q: nat)
    requires Cong(a, b, q) && Cong(c, d, q)
    ensures Cong(a * c, b * d, q)
  {
    var k :| a - b == Times(q, k);
    var l :| c - d == Times(q, l);
    assert a * c - b * d == (a - b) * c + b * (c - d);
    assert (q * k) * c + b * (q * l) == q * (k * c + b * l);
    assert a * c - b * d == Times(q, k * c + b * l);
  }

  lemma CongModulus(a: int, b: int, m: nat, q: nat)
    requires Cong(a, b, m) && Divides(q, m)
    ensures Cong(a, b, q)
  {
    var k :| a - b == Times(m, k);
    var l :| m == Times(q, l);
    assert (q * l) * k == q * (l * k);
    assert a - b == Times(q, l * k);
  }

  lemma RemainderCong(a: int, q: nat)
    requires q > 0
    ensures Cong(a, a % q, q)
  {
    assert a - a % q == Times(q, a / q);
  }

  // ---- Powers ----

  function Pow(b: int, e: nat): int { if e == 0 then 1 else b * Pow(b, e - 1) }

  function Exp2(e: nat): (r: nat)
    ensures r > 0
  {
    if e == 0 then 1 else 2 * Exp2(e - 1)
  }

  lemma {:induction false} PowAdd(b: int, m: nat, n: nat)
    ensures Pow(b, m + n) == Pow(b, m) * Pow(b, n)
  {
    if m > 0 {
      PowAdd(b, m - 1, n);
      assert b * (Pow(b, m - 1) * Pow(b, n)) == (b * Pow(b, m - 1)) * Pow(b, n);
    }
  }

  lemma {:induction false} PowMul(b: int, m: nat, n: nat)
    ensures m * n >= 0 && Pow(b, m * n) == Pow(Pow(b, m), n)
    decreases n
  {
    if n == 0 {
      assert m * n == 0;
    } else {
      PowMul(b, m, n - 1);
      assert m * n == m + m * (n - 1);
      PowAdd(b, m, m * (n - 1));
    }
  }

  lemma {:induction false} CongPow(a: int, c: int, e: nat, q: nat)
    requires Cong(a, c, q)
    ensures Cong(Pow(a, e), Pow(c, e), q)
    decreases e
  {
    if e == 0 {
      CongSame(1, q);
    } else {
      CongPow(a, c, e - 1, q);
      CongMul(a, c, Pow(a, e - 1), Pow(c, e - 1), q);
    }
  }

  lemma {:induction false} PowOfUnit(e: nat)
    ensures Pow(1, e) == 1 && Pow(-1, e) == if e % 2 == 0 then 1 else -1
    decreases e
  {
    if e > 0 { PowOfUnit(e - 1); }
  }

  // ---- Why 3 * 2^30 + 1 is prime ----

  /** An element whose 2^n-th power is -1 has no smaller order than 2^(n+1). */
  lemma {:induction false} NoSmallOrder(b: int, n: nat, q: nat, d: nat)
    requires q >= 3 && Cong(Pow(b, Exp2(n)), -1, q) && 0 < d < Exp2(n + 1)
    ensures !Cong(Pow(b, d), 1, q)
    decreases n
  {
    if Cong(Pow(b, d), 1, q) {
      if d % 2 == 0 {
        PowMul(b, 2, d / 2);
        PowMul(b, 2, Exp2(n - 1));
        NoSmallOrder(Pow(b, 2), n - 1, q, d / 2);
      } else {
        PowMul(b, d, Exp2(n));
        PowMul(b, Exp2(n), d);
        assert d * Exp2(n) == Exp2(n) * d;
        CongPow(Pow(b, d), 1, Exp2(n), q);
        CongPow(Pow(b, Exp2(n)), -1, d, q);
        PowOfUnit(Exp2(n));
        PowOfUnit(d);
        MinusOneIsNotOne(Pow(b, d * Exp2(n)), q);
      }
    }
  }

  lemma MinusOneIsNotOne(x: int, q: nat)
    requires q >= 3
    ensures !Cong(x, 1, q) || !Cong(x, -1, q)
  {
    if Cong(x, 1, q) && Cong(x, -1, q) {
      var k :| x - 1 == Times(q, k);
      var l :| x + 1 == Times(q, l);
      assert 2 == q * (l - k);
      if l - k >= 1 { MulAtLeast(q, l - k); }
      if l - k <= 0 { MulMonotone(q, l - k, 0); }
    }
  }

  lemma EqualPowers(b: int, n: nat, q: nat, i: nat, j: nat)
    requires q >= 3 && Cong(Pow(b, Exp2(n)), -1, q) && i < j < Exp2(n + 1)
    ensures !Cong(Pow(b, i), Pow(b, j), q)
  {
    if Cong(Pow(b, i), Pow(b, j), q) {
      var r, d := Exp2(n + 1) - i, j - i;
      CongSame(Pow(b, r), q);
      CongMul(Pow(b, i), Pow(b, j), Pow(b, r), Pow(b, r), q);
      PowAdd(b, i, r);
      PowAdd(b, j, r);
      FullPower(b, n, q);
      assert Cong(Pow(b, Exp2(n + 1)), Pow(b, Exp2(n + 1) + d), q);
      PowAdd(b, Exp2(n + 1), d);
      CongSame(Pow(b, d), q);
      CongMul(Pow(b, Exp2(n + 1)), 1, Pow(b, d), Pow(b, d), q);
      CongTrans(Pow(b, Exp2(n + 1)), Pow(b, Exp2(n + 1) + d), Pow(b, d), q);
      CongSame(Pow(b, d), q);
      CongTrans(Pow(b, d), Pow(b, Exp2(n + 1)), 1, q);
      NoSmallOrder(b, n, q, d);
    }
  }

  lemma FullPower(b: int, n: nat, q: nat)
    requires Cong(Pow(b, Exp2(n)), -1, q)
    ensures Cong(Pow(b, Exp2(n + 1)), 1, q)
  {
    PowAdd(b, Exp2(n), Exp2(n));
    CongMul(Pow(b, Exp2(n)), -1, Pow(b, Exp2(n)), -1, q);
  }

  function Residue(b: int, i: nat, q: nat): (r: nat)
    requires q > 0
    ensures r < q && Cong(Pow(b, i), r, q)
  {
    RemainderCong(Pow(b, i), q);
    Pow(b, i) % q
  }

  lemma DistinctResidues(b: int, n: nat, q: nat, i: nat, j: nat)
    requires q >= 3 && Cong(Pow(b, Exp2(n)), -1, q) && i < j < Exp2(n + 1)
    ensures Residue(b, i, q) != Residue(b, j, q)
  {
    hide Pow, Exp2, Cong, Residue;
    if Residue(b, i, q) == Residue(b, j, q) {
      CongSame(Residue(b, j, q), q);
      CongTrans(Pow(b, j), Residue(b, j, q), Residue(b, j, q), q);
      CongTrans(Pow(b, i), Residue(b, i, q), Pow(b, j), q);
      EqualPowers(b, n, q, i, j);
    }
  }

  /** All powers below 2^(n+1) being distinct, there is room for them modulo q. */
  lemma RoomForPowers(b: int, n: nat, q: nat)
    requires q >= 3 && Cong(Pow(b, Exp2(n)), -1, q)
    ensures q >= Exp2(n + 1)
  {
    hide Pow, Exp2, Cong, Residue;
    var s: seq<nat> := seq(Exp2(n + 1), i requires 0 <= i < Exp2(n + 1) => Residue(b, i, q));
    forall i, j | 0 <= i < j < |s| ensures s[i] != s[j] { DistinctResidues(b, n, q, i, j); }
    Pigeonhole(s, q);
  }

  /** Squaring again and again modulo 3 * 2^30 + 1. */
  function Squared(b: int, n: nat): int
    decreases n
  {
    if n == 0 then b else Squared(b * b % PROTH, n - 1)
  }

  lemma {:induction false} SquaredIsPower(b: int, n: nat)
    ensures Cong(Pow(b, Exp2(n)), Squared(b, n), PROTH)
    decreases n
  {
    if n == 0 {
      assert Pow(b, 1) == b * Pow(b, 0);
      CongSame(b, PROTH);
    } else {
      var e := Exp2(n - 1);
      SquareOfPower(b, e);
      RemainderCong(b * b, PROTH);
      CongPow(b * b, b * b % PROTH, e, PROTH);
      SquaredIsPower(b * b % PROTH, n - 1);
      CongTrans(Pow(b * b, e), Pow(b * b % PROTH, e), Squared(b * b % PROTH, n - 1), PROTH);
    }
  }

  lemma SquareOfPower(b: int, e: nat)
    ensures Pow(b, 2 * e) == Pow(b * b, e)
  {
    PowMul(b, 2, e);
    assert Pow(b, 2) == b * Pow(b, 1) && Pow(b, 1) == b * Pow(b, 0);
  }

  lemma LargeDivisors(b: int, n: nat, q: nat)
    requires Squared(b, n) == PROTH - 1 && q >= 3 && Divides(q, PROTH)
    ensures q >= Exp2(n + 1)
  {
    SquaredIsPower(b, n);
    assert PROTH - 1 - (-1) == Times(PROTH, 1);
    CongTrans(Pow(b, Exp2(n)), PROTH - 1, -1, PROTH);
    CongModulus(Pow(b, Exp2(n)), -1, PROTH, q);
    RoomForPowers(b, n, q);
  }

  lemma Step(x: int, y: int, n: nat)
    requires n > 0 && x * x % PROTH == y
    ensures Squared(x, n) == Squared(y, n - 1)
    ensures n == 1 ==> Squared(x, n) == y
  {}

  /** 125 to the power 2^29 is -1. */
  lemma SquaringReachesMinusOne()
    ensures Squared(125, 29) == PROTH - 1
  {
    hide Squared;
    Step(125, 15625, 29); Step(15625, 244140625, 28); Step(244140625, 229807484, 27);
    Step(229807484, 247425463, 26); Step(247425463, 1838654099, 25); Step(1838654099, 538601489, 24);
    Step(538601489, 140749519, 23); Step(140749519, 3182672916, 22); Step(3182672916, 448192265, 21);
    Step(448192265, 3009749949, 20); Step(3009749949, 511777184, 19); Step(511777184, 1358427440, 18);
    Step(1358427440, 1800384970, 17); Step(1800384970, 2519378301, 16); Step(2519378301, 1405588668, 15);
    Step(1405588668, 1445148504, 14); Step(1445148504, 1734477367, 13); Step(1734477367, 211283056, 12);
    Step(211283056, 1168849724, 11); Step(1168849724, 1855261384, 10); Step(1855261384, 764652596, 9);
    Step(764652596, 1958494276, 8); Step(1958494276, 1292405718, 7); Step(1292405718, 651814490, 6);
    Step(651814490, 66931328, 5); Step(66931328, 2526611335, 4); Step(2526611335, 1031213943, 3);
    Step(1031213943, 1013946479, 2); Step(1013946479, 3221225472, 1);
  }

  lemma PowerOfTwo()
    ensures Exp2(30) == MAX_REASONABLE
  {
    assert Exp2(10) == 0x400;
    assert Exp2(20) == 0x10_0000;
  }

  lemma DivisorIsLarge(q: nat, b: int, n: nat)
    requires q >= 2 && Divides(q, PROTH) && b == 125 && n == 29
    ensures q >= MAX_REASONABLE
  {
    hide Squared, Exp2;
    if q == 2 { EvenDivisor(2, PROTH); }
    SquaringReachesMinusOne();
    PowerOfTwo();
    LargeDivisors(b, n, q);
  }

  /** Both of two factors would be at least 2^30, and their product far too large. */
  lemma ProthIsPrime()
    ensures IsPrime(PROTH)
  {
    forall d: nat | 2 <= d < PROTH ensures !Divides(d, PROTH) {
      if Divides(d, PROTH) {
        var k :| PROTH == Times(d, k);
        assert k >= 2 by {
          if k <= 1 { MulMonotone(d, k, 1); }
        }
        assert PROTH == Times(k, d);
        DivisorIsLarge(d, 125, 29);
        DivisorIsLarge(k, 125, 29);
        MulMonotone(d, MAX_REASONABLE, k);
      }
    }
  }

  // ---- The search ----

  function SaturatingAdd(a: nat, b: nat): nat { if a + b > U64_MAX then U64_MAX else a + b }

  /** The least prime not below the value, exactly for values up to 2^30. */
  method NextPrime(value: nat) returns (prime: nat)
    ensures IsNextPrime(value, prime) <==> value <= MAX_REASONABLE
    ensures value > MAX_REASONABLE ==> prime == 2
  {
    hide IsPrime, NoPrimes;
    if value <= 2 {
      TwoIsNext(value);
      return 2;
    }
    if value > MAX_REASONABLE { return 2; }
    prime := SearchFrom(value);
  }

  /** 2^30 + 1 is answered with 2, although there is a prime above it within 64 bits. */
  lemma AnswerAboveTheLimit()
    ensures !IsNextPrime(MAX_REASONABLE + 1, 2) && IsPrime(PROTH) && MAX_REASONABLE + 1 <= PROTH <= U64_MAX
  {
    ProthIsPrime();
  }

  method SearchFrom(value: nat) returns (candidate: nat)
    requires 2 < value <= MAX_REASONABLE
    ensures IsNextPrime(value, candidate)
  {
    hide IsPrime, NoPrimes;
    ProthIsPrime();
    candidate := if value % 2 == 0 then value + 1 else value;
    FirstCandidate(value, candidate);
    var found := TrialDivision(candidate);
    while !found
      invariant candidate % 2 == 1 && value <= candidate <= PROTH && (found <==> IsPrime(candidate)) && NoPrimes(value, candidate)
      decreases PROTH - candidate, !found
    {
      assert candidate != PROTH;
      NextCandidate(value, candidate);
      candidate := SaturatingAdd(candidate, 2);
      found := TrialDivision(candidate);
    }
  }

  lemma FirstCandidate(value: nat, candidate: nat)
    requires value > 2 && candidate == if value % 2 == 0 then value + 1 else value
    ensures NoPrimes(value, candidate)
  {
    EvenIsComposite(value);
  }

  lemma NextCandidate(value: nat, candidate: nat)
    requires 2 < candidate && candidate % 2 == 1 && !IsPrime(candidate) && NoPrimes(value, candidate)
    ensures NoPrimes(value, candidate + 2)
  {
    hide IsPrime;
    EvenIsComposite(candidate + 1);
  }

  lemma TwoIsNext(value: nat)
    requires value <= 2
    ensures IsNextPrime(value, 2)
  {}

  lemma EvenIsComposite(n: nat)
    requires n > 2
    ensures n % 2 == 0 ==> !IsPrime(n)
  {
    DividesMeansNoRemainder(2, n);
  }
}
