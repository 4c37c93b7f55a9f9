/** size_t arithmetic: positions wrap at 2^64, capacities are powers of two, and an index is taken
    with a bit mask. */
module Words {
  const WORD: nat := 0x1_0000_0000_0000_0000

  function Add(a: nat, b: nat): nat { (a + b) % WORD }
  function Sub(a: nat, b: nat): nat { (a - b) % WORD }

  /** Bitwise and. */
  function And(a: nat, b: nat): nat
    decreases a
  {
    if a == 0 then 0 else 2 * And(a / 2, b / 2) + if a % 2 == 1 && b % 2 == 1 then 1 else 0
  }

  function Pow2(k: nat): nat { if k == 0 then 1 else 2 * Pow2(k - 1) }

  /** The test the buffers make of their capacity. */
  predicate IsPowerOfTwo(n: nat) { n != 0 && And(n, n - 1) == 0 }

  lemma {:induction false} AndSelf(a: nat)
    ensures And(a, a) == a
    decreases a
  {
    if a > 0 { AndSelf(a / 2); }
  }

  lemma {:induction false} AndEvenOdd(n: nat)
    requires n > 0
    ensures n % 2 == 0 ==> n / 2 > 0 && And(n, n - 1) == 2 * And(n / 2, n / 2 - 1)
    ensures n % 2 == 1 ==> And(n, n - 1) == n - 1
  {
    if n % 2 == 0 {
      assert (n - 1) / 2 == n / 2 - 1;
    } else {
      assert (n - 1) / 2 == n / 2 && (n - 1) % 2 == 0;
      AndSelf(n / 2);
    }
  }

  lemma {:induction false} PowersPass(k: nat)
    ensures IsPowerOfTwo(Pow2(k))
    decreases k
  {
    if k > 0 {
      PowersPass(k - 1);
      AndEvenOdd(Pow2(k));
    }
  }

  lemma {:induction false} PassesArePowers(n: nat) returns (k: nat)
    requires IsPowerOfTwo(n)
    ensures n == Pow2(k)
    decreases n
  {
    AndEvenOdd(n);
    if n % 2 == 0 {
      k := PassesArePowers(n / 2);
      k := k + 1;
    } else {
      k := 0;
    }
  }

  /** Main result: the bit trick accepts exactly the powers of two. */
  lemma PowerOfTwoTest(n: nat)
    ensures IsPowerOfTwo(n) <==> exists k: nat :: n == Pow2(k)
  {
    hide IsPowerOfTwo, Pow2;
    if IsPowerOfTwo(n) {
      var k := PassesArePowers(n);
    }
    forall k: nat | n == Pow2(k)
      ensures IsPowerOfTwo(n)
    {
      PowersPass(k);
    }
  }

  lemma {:induction false} Pow2Positive(k: nat)
    ensures Pow2(k) >= 1
  {
    if k > 0 { Pow2Positive(k - 1); }
  }

  /** Masking with 2^k - 1 is the remainder by 2^k. */
  lemma {:induction false} MaskIsRemainder(x: nat, k: nat)
    ensures Pow2(k) >= 1 && And(x, Pow2(k) - 1) == x % Pow2(k)
    decreases k
  {
    hide And;
    Pow2Positive(k);
    if k == 0 {
      AndZero(x);
    } else {
      Pow2Positive(k - 1);
      MaskIsRemainder(x / 2, k - 1);
      MaskDoubles(x, Pow2(k - 1));
    }
  }

  lemma AndOfOdd(x: nat, m: nat)
    requires m >= 1
    ensures And(x, 2 * m - 1) == 2 * And(x / 2, m - 1) + x % 2
  {
    assert (2 * m - 1) / 2 == m - 1 && (2 * m - 1) % 2 == 1;
    if x == 0 { assert And(0, m - 1) == 0; }
  }

  lemma {:induction false} MaskDoubles(x: nat, m: nat)
    requires m >= 1 && And(x / 2, m - 1) == (x / 2) % m
    ensures And(x, 2 * m - 1) == x % (2 * m)
  {
    hide And;
    AndOfOdd(x, m);
    DoubledRemainder(x, m);
  }

  lemma {:induction false} AndZero(x: nat)
    ensures And(x, 0) == 0
    decreases x
  {
    if x > 0 { AndZero(x / 2); }
  }

  lemma DoubledRemainder(x: nat, m: nat)
    requires m >= 1
    ensures x % (2 * m) == 2 * ((x / 2) % m) + x % 2
  {
    var h := x / 2;
    var q, r := h / m, h % m;
    assert h == m * q + r;
    assert x == 2 * h + x % 2 == (2 * m) * q + (2 * r + x % 2);
    RemainderIs(x, 2 * m, q, 2 * r + x % 2);
  }

  lemma MulAtLeast(d: int, e: int)
    requires d > 0 && e >= 1
    ensures d * e >= d
  {}

  lemma SmallMultiple(d: int, e: int)
    requires d > 0 && -d < d * e < d
    ensures e == 0
  {
    assert d * -e == -(d * e);
    if e >= 1 { MulAtLeast(d, e); }
    if e <= -1 { MulAtLeast(d, -e); }
  }

  lemma RemainderIs(x: int, d: int, q: int, r: int)
    requires d > 0 && x == d * q + r && 0 <= r < d
    ensures x % d == r && x / d == q
  {
    var q', r' := x / d, x % d;
    assert x == d * q' + r';
    assert d * (q - q') == d * q - d * q' == r' - r;
    SmallMultiple(d, q - q');
  }

  lemma {:induction false} Pow2Adds(a: nat, b: nat)
    ensures Pow2(a + b) == Pow2(a) * Pow2(b)
  {
    if a > 0 {
      Pow2Adds(a - 1, b);
      Associates(2, Pow2(a - 1), Pow2(b));
    }
  }

  lemma Associates(x: int, y: int, z: int)
    ensures (x * y) * z == x * (y * z)
  {}

  lemma {:induction false} Pow2Grows(a: nat, b: nat)
    requires a <= b
    ensures Pow2(a) <= Pow2(b)
    decreases b
  {
    if a < b { Pow2Grows(a, b - 1); Pow2Positive(b - 1); }
  }

  lemma WordIsPow2()
    ensures Pow2(64) == WORD
  {
    assert Pow2(8) == 256;
    hide Pow2;
    Pow2Adds(8, 8);
    Pow2Adds(16, 16);
    Pow2Adds(32, 32);
  }

  /** A capacity for which masking wrapped positions is sound. */
  ghost predicate GoodCapacity(cap: nat) {
    && 0 < cap < WORD
    && (exists m: nat :: WORD == cap * m)
    && (forall x: nat :: And(x, cap - 1) == x % cap)
  }

  /** Every power of two that fits a size_t is such a capacity. */
  lemma PowersAreGood(cap: nat)
    requires IsPowerOfTwo(cap) && cap < WORD
    ensures GoodCapacity(cap)
  {
    PowerOfTwoTest(cap);
    var k: nat :| cap == Pow2(k);
    WordIsPow2();
    if k > 64 { Pow2Grows(64, k); }
    Pow2Adds(k, 64 - k);
    assert WORD == cap * Pow2(64 - k);
    forall x: nat ensures And(x, cap - 1) == x % cap { MaskIsRemainder(x, k); }
  }

  /** Such a capacity is at most half the range of positions. */
  lemma HalfWord(cap: nat)
    requires GoodCapacity(cap)
    ensures 2 * cap <= WORD
  {
    var m: nat :| WORD == cap * m;
    hide GoodCapacity;
    if m >= 2 { assert cap * m == 2 * cap + cap * (m - 2); }
  }

  /** Reducing by 2^64 first does not change a remainder by a good capacity. */
  lemma WrapThenMask(x: nat, cap: nat)
    requires GoodCapacity(cap)
    ensures (x % WORD) % cap == x % cap
  {
    var m: nat :| WORD == cap * m;
    hide GoodCapacity;
    var q, r := x / WORD, x % WORD;
    DoubleRemainder(x, cap, m, q, r);
  }

  lemma DoubleRemainder(x: int, cap: int, m: int, q: int, r: int)
    requires cap > 0 && x == cap * m * q + r
    ensures r % cap == x % cap
  {
    var q', r' := r / cap, r % cap;
    assert r == cap * q' + r';
    assert cap * m * q == cap * (m * q);
    assert cap * (m * q) + cap * q' == cap * (m * q + q');
    RemainderIs(x, cap, m * q + q', r');
  }

  /** The difference of two wrapped positions is their true distance, however often they wrapped. */
  lemma WrappedDistance(head: nat, tail: nat)
    requires tail <= head < tail + WORD
    ensures Sub(head % WORD, tail % WORD) == head - tail
  {
  }

  /** Two positions less than a capacity apart never share a slot. */
  lemma SlotsDistinct(a: nat, b: nat, cap: nat)
    requires 0 < cap && a < b < a + cap
    ensures a % cap != b % cap
  {
    var qa, qb := a / cap, b / cap;
    assert a == cap * qa + a % cap && b == cap * qb + b % cap;
    if a % cap == b % cap {
      assert cap * (qb - qa) == cap * qb - cap * qa == b - a;
      SmallMultiple(cap, qb - qa);
    }
  }

  /** Stepping on from a position, before and after the end of the storage. */
  lemma RemainderSteps(p: nat, i: nat, cap: nat)
    requires 0 < cap && i <= cap
    ensures (p + i) % cap == if p % cap + i < cap then p % cap + i else p % cap + i - cap
  {
    var q, r := p / cap, p % cap;
    assert p == cap * q + r;
    if r + i < cap {
      RemainderIs(p + i, cap, q, r + i);
    } else {
      assert cap * (q + 1) == cap * q + cap;
      RemainderIs(p + i, cap, q + 1, r + i - cap);
    }
  }
}
