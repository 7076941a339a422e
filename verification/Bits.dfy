/** Bitwise arithmetic on unbounded naturals, as the ring buffers use it. */
module Bits {

  /** Bitwise conjunction, bit by bit from the least significant one. */
  function And(x: nat, y: nat): (r: nat)
    ensures r <= x && r <= y
    decreases x
  {
    if x == 0 || y == 0 then 0
    else 2 * And(x / 2, y / 2) + (if x % 2 == 1 && y % 2 == 1 then 1 else 0)
  }

  function Pow2(k: nat): (p: nat)
    ensures p > 0
  {
    if k == 0 then 1 else 2 * Pow2(k - 1)
  }

  ghost predicate IsPowerOfTwo(n: nat) {
    exists k: nat :: n == Pow2(k)
  }

  lemma {:induction false} AndMaskPow2(x: nat, k: nat)
    ensures And(x, Pow2(k) - 1) == x % Pow2(k)
    decreases k
  {
    hide And;
    if k == 0 {
      AndZero(x);
    } else {
      var p := Pow2(k - 1);
      AndMaskPow2(x / 2, k - 1);
      HalfModulus(x, p);
      AndHalves(x, 2 * p - 1);
      assert (2 * p - 1) / 2 == p - 1 && (2 * p - 1) % 2 == 1;
    }
  }

  lemma AndZero(x: nat)
    ensures And(x, 0) == 0
  {
  }

  /** Peeling off the lowest bit, also when an operand is zero. */
  lemma AndHalves(x: nat, y: nat)
    ensures And(x, y) == 2 * And(x / 2, y / 2) + (if x % 2 == 1 && y % 2 == 1 then 1 else 0)
  {
  }

  lemma HalfModulus(x: nat, p: nat)
    requires p > 0
    ensures x % (2 * p) == 2 * ((x / 2) % p) + x % 2
  {
    var h := x / 2;
    var q, r := h / p, h % p;
    assert h == q * p + r;
    assert x == 2 * h + x % 2 == q * (2 * p) + (2 * r + x % 2);
    ModOf(x, 2 * p, q, 2 * r + x % 2);
  }

  lemma MultipleBounds(q: int, n: nat)
    ensures q >= 1 ==> q * n >= n
    ensures q <= -1 ==> q * n <= -(n as int)
  {
  }

  lemma ModOf(x: int, n: nat, q: int, r: nat)
    requires n > 0 && r < n && x == q * n + r
    ensures x % n == r && x / n == q
  {
    var d := x / n - q;
    assert x == (x / n) * n + x % n;
    assert d * n == r - x % n;
    MultipleBounds(d, n);
  }

  /** Masking with N - 1 is arithmetic modulo N when N is a power of two. */
  lemma AndMask(x: nat, n: nat)
    requires IsPowerOfTwo(n)
    ensures And(x, n - 1) == x % n
  {
    var k: nat :| n == Pow2(k);
    AndMaskPow2(x, k);
  }

  /** The compile-time guard of both rings accepts exactly the powers of two. */
  lemma {:induction false} GuardIffPowerOfTwo(n: nat)
    ensures (n != 0 && And(n, n - 1) == 0) <==> IsPowerOfTwo(n)
    decreases n
  {
    if n == 0 {
      forall k: nat ensures n != Pow2(k) {}
    } else if n == 1 {
      assert n == Pow2(0);
      assert And(1, 0) == 0;
    } else if n % 2 == 1 {
      assert And(n, n - 1) == 2 * And(n / 2, (n - 1) / 2);
      AndSelf(n / 2);
      assert (n - 1) / 2 == n / 2;
      forall k: nat ensures n != Pow2(k) { if k > 0 { assert Pow2(k) == 2 * Pow2(k - 1); } }
    } else {
      GuardIffPowerOfTwo(n / 2);
      assert (n - 1) / 2 == n / 2 - 1;
      assert And(n, n - 1) == 2 * And(n / 2, n / 2 - 1);
      if IsPowerOfTwo(n / 2) {
        var k: nat :| n / 2 == Pow2(k);
        assert n == Pow2(k + 1);
      }
      if IsPowerOfTwo(n) {
        var k: nat :| n == Pow2(k);
        assert k > 0 && n / 2 == Pow2(k - 1);
      }
    }
  }

  lemma {:induction false} AndSelf(x: nat)
    ensures And(x, x) == x
  {
    if x > 0 { AndSelf(x / 2); }
  }

  /** Two positions less than one lap apart share a slot only if they are equal. */
  lemma SlotsDistinct(a: nat, b: nat, n: nat)
    requires n > 0 && a <= b < a + n
    ensures a % n == b % n ==> a == b
  {
    if a % n == b % n {
      var q := b / n - a / n;
      assert b - a == q * n;
      MultipleBounds(q, n);
    }
  }

  /** Two tickets of one slot less than two laps apart, neither ahead by a lap, are equal or one lap apart. */
  lemma SameSlotDifference(a: nat, b: nat, n: nat)
    requires n > 0
    ensures a % n == b % n && a != b && a < b + n && b <= a + n ==> b == a + n
  {
    if a % n == b % n && a != b && a < b + n && b <= a + n {
      if a < b { if b < a + n { SlotsDistinct(a, b, n); } } else { SlotsDistinct(b, a, n); }
    }
  }

  lemma NextMultiple(q: int, n: int)
    ensures (q + 1) * n == q * n + n
  {
  }

  lemma NextSlot(a: nat, n: nat)
    requires n > 0
    ensures (a % n + 1) % n == (a + 1) % n
  {
    var q, r := a / n, a % n;
    NextMultiple(q, n);
    if r + 1 < n {
      ModOf(a + 1, n, q, r + 1);
      ModOf(r + 1, n, 0, r + 1);
    } else {
      ModOf(a + 1, n, q + 1, 0);
      ModOf(r + 1, n, 1, 0);
    }
  }

  lemma SameSlotOneLapLater(a: int, n: nat)
    requires n > 0
    ensures (a + n) % n == a % n
  {
    var q := a / n;
    NextMultiple(q, n);
    ModOf(a + n, n, q + 1, a % n);
  }
}
