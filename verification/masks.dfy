/** Arithmetic of wrapping an index with a mask. */
module Masks {
  import opened Protocol

  function Pow2(k: nat): (r: nat)
    ensures r > 0
  {
    if k == 0 then 1 else 2 * Pow2(k - 1)
  }

  /** The capacities a queue may have: powers of two that fit a 64-bit size. */
  ghost predicate IsCapacity(c: nat) {
    exists k: nat :: k <= 63 && c == Pow2(k)
  }

  /** Bitwise and, on the binary digits of two naturals. */
  function And(a: nat, b: nat): nat {
    if a == 0 || b == 0 then 0 else 2 * And(a / 2, b / 2) + (a % 2) * (b % 2)
  }

  lemma MultipleAtLeast(c: nat, d: int)
    requires c > 0
    ensures d >= 1 ==> c * d >= c
    ensures d <= -1 ==> c * d <= -1 * c
  {
    if d >= 1 {
      assert c * d == c + c * (d - 1);
    } else if d <= -1 {
      assert c * d == -1 * c + c * (d + 1);
    }
  }

  lemma DivModUnique(x: int, c: nat, q: int, r: int)
    requires c > 0 && 0 <= r < c && x == c * q + r
    ensures x / c == q && x % c == r
  {
    assert c * (q - x / c) == x % c - r;
    MultipleAtLeast(c, q - x / c);
  }

  lemma MultipleMonotone(c: nat, a: int, b: int)
    requires a <= b
    ensures c * a <= c * b
  {
    assert c * b == c * a + c * (b - a);
  }

  lemma QuotientMonotone(a: nat, b: nat, c: nat)
    requires c > 0 && a <= b
    ensures a / c <= b / c
  {
    assert b - a == c * (b / c - a / c) + (b % c - a % c);
    MultipleAtLeast(c, b / c - a / c);
  }

  lemma ModShift(a: int, m: int, c: nat)
    requires c > 0
    ensures (a + m * c) % c == a % c
  {
    assert a + m * c == c * (a / c + m) + a % c;
    DivModUnique(a + m * c, c, a / c + m, a % c);
  }

  /** Two counters closer than the capacity that share an index are equal. */
  lemma ModClose(a: int, b: int, c: nat)
    requires c > 0 && a % c == b % c && -(c as int) < a - b < c
    ensures a == b
  {
    assert a - b == c * (a / c - b / c);
    MultipleAtLeast(c, a / c - b / c);
  }

  lemma NextIndex(a: nat, c: nat)
    requires c > 0
    ensures (a % c + 1) % c == (a + 1) % c
  {
    assert a + 1 == (a % c + 1) + (a / c) * c;
    ModShift(a % c + 1, a / c, c);
  }

  lemma Halves(x: nat, h: nat)
    requires h > 0
    ensures x % (2 * h) == 2 * ((x / 2) % h) + x % 2
  {
    var q, r := x / 2 / h, (x / 2) % h;
    assert x / 2 == h * q + r;
    assert (2 * h) * q == 2 * (h * q);
    DivModUnique(x, 2 * h, q, 2 * r + x % 2);
  }

  lemma AndStep(x: nat, h: nat)
    requires h > 0
    ensures And(x, 2 * h - 1) == 2 * And(x / 2, h - 1) + x % 2
  {
    var mask := 2 * h - 1;
    assert mask / 2 == h - 1 && mask % 2 == 1;
  }

  /** `&` with a capacity less one is the remainder by the capacity, for every power of two. */
  lemma {:induction false} MaskIsRemainder(x: nat, k: nat)
    ensures And(x, Pow2(k) - 1) == x % Pow2(k)
    decreases k
  {
    if k == 0 {
      assert x % 1 == 0;
    } else {
      var h := Pow2(k - 1);
      MaskIsRemainder(x / 2, k - 1);
      AndStep(x, h);
      Halves(x, h);
      assert Pow2(k) == 2 * h;
    }
  }

  lemma RemainderOfRemainder(x: int, d: nat, c: nat)
    requires d > 0 && c > 0 && d * c > 0
    ensures (x % (d * c)) % c == x % c
  {
    var q := x / (d * c);
    assert x == (d * c) * q + x % (d * c);
    assert (d * c) * q == (q * d) * c;
    ModShift(x % (d * c), q * d, c);
  }

  lemma {:induction false} Pow2Adds(j: nat, k: nat)
    ensures Pow2(j + k) == Pow2(j) * Pow2(k)
  {
    if j == 0 {
    } else {
      Pow2Adds(j - 1, k);
      assert Pow2(j + k) == 2 * Pow2((j - 1) + k);
      assert Pow2(j) * Pow2(k) == 2 * (Pow2(j - 1) * Pow2(k));
    }
  }

  lemma Pow2Doubled(k: nat, p: nat)
    requires Pow2(k) == p
    ensures Pow2(k + k) == p * p
  {
    Pow2Adds(k, k);
  }

  lemma Pow2Of64()
    ensures Pow2(64) == TWO_64
  {
    assert Pow2(4) == 16;
    Pow2Doubled(4, 16);
    Pow2Doubled(8, 0x100);
    Pow2Doubled(16, TWO_16);
    Pow2Doubled(32, TWO_32);
  }

  /** The wrapped index after one step. */
  function Next(index: nat, capacity: nat): nat
    requires capacity > 0
  {
    And(index + 1, capacity - 1)
  }

  /** The size two loaded indices suggest; the subtraction wraps at 64 bits. */
  function SizeApprox(head: nat, tail: nat, capacity: nat): nat
    requires capacity > 0
  {
    And((head - tail) % TWO_64, capacity - 1)
  }

  lemma NextWraps(index: nat, capacity: nat)
    requires IsCapacity(capacity)
    ensures Next(index, capacity) == (index + 1) % capacity
  {
    var k: nat :| k <= 63 && capacity == Pow2(k);
    MaskIsRemainder(index + 1, k);
  }

  lemma SizeApproxIsDifference(head: nat, tail: nat, capacity: nat)
    requires IsCapacity(capacity)
    ensures SizeApprox(head, tail, capacity) == (head - tail) % capacity
  {
    var k: nat :| k <= 63 && capacity == Pow2(k);
    MaskIsRemainder((head - tail) % TWO_64, k);
    Pow2Of64();
    Pow2Adds(64 - k, k);
    var d := Pow2(64 - k);
    assert TWO_64 == d * capacity;
    RemainderOfRemainder(head - tail, d, capacity);
  }

  lemma SplitDifference(h: int, t: int, c: int, qh: int, rh: int, qt: int, rt: int)
    requires h == c * qh + rh && t == c * qt + rt
    ensures rh - rt == (h - t) + (qt - qh) * c
  {
    assert (qt - qh) * c == c * qt - c * qh;
  }

  /** The size of a queue whose counters are `h` and `t` is their true difference. */
  lemma SizeOfCounters(h: nat, t: nat, capacity: nat)
    requires IsCapacity(capacity) && t <= h < t + capacity
    ensures SizeApprox(h % capacity, t % capacity, capacity) == h - t
  {
    SizeApproxIsDifference(h % capacity, t % capacity, capacity);
    RemainderDifference(h, t, capacity);
    DivModUnique(h - t, capacity, 0, h - t);
  }

  lemma RemainderDifference(h: nat, t: nat, c: nat)
    requires c > 0
    ensures (h % c - t % c) % c == (h - t) % c
  {
    var qh, qt := h / c, t / c;
    SplitDifference(h, t, c, qh, h % c, qt, t % c);
    ModShift(h - t, qt - qh, c);
  }
}
