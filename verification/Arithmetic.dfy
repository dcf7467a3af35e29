/** Division facts the other modules need. */
module Arithmetic {
  lemma DivUnique(x: int, m: int, q: int, r: int)
    requires m > 0 && x == q * m + r && 0 <= r < m
    ensures x / m == q && x % m == r
  {
    var q', r' := x / m, x % m;
    assert x == q' * m + r';
    if q' < q { MulGap(q', q, m); } else if q' > q { MulGap(q, q', m); }
  }

  lemma MulGap(a: int, b: int, m: int)
    requires a < b && m > 0
    ensures b * m >= a * m + m
  {
    assert (b - a) * m == b * m - a * m;
    assert (b - a) * m == m + (b - a - 1) * m;
    MulNat(b - a - 1, m);
  }

  lemma MulNat(a: int, b: int)
    requires a >= 0 && b >= 0
    ensures a * b >= 0
  {
  }

  lemma MulMonotone(a: int, b: int, m: int)
    requires a <= b && m >= 0
    ensures a * m <= b * m
  {
    MulNat(b - a, m);
    assert (b - a) * m == b * m - a * m;
  }

  lemma MulLess(a: int, b: int, m: int)
    requires m > 0 && a * m < b * m
    ensures a < b
  {
    if a >= b { MulMonotone(b, a, m); }
  }

  lemma DivAtLeast(s: int, c: int, k: int)
    requires c > 0 && s >= k * c
    ensures s / c >= k
  {
    assert s == s / c * c + s % c;
    if s / c < k { MulGap(s / c, k, c); }
  }

  /** Numbers with the same remainder differ by a multiple. */
  lemma SameRemainder(a: int, b: int, m: int)
    requires m > 0 && a % m == b % m
    ensures a == b + (a / m - b / m) * m
  {
    assert a == a / m * m + a % m && b == b / m * m + b % m;
    assert (a / m - b / m) * m == a / m * m - b / m * m;
  }

  // ---- powers of two ----

  function Pow2(k: nat): (p: nat)
    ensures p >= 1
  {
    if k == 0 then 1 else 2 * Pow2(k - 1)
  }

  lemma {:induction false} PowMonotone(a: nat, b: nat)
    requires a <= b
    ensures Pow2(a) <= Pow2(b)
  {
    if a < b { PowMonotone(a, b - 1); }
  }

  lemma PowGap(a: nat, b: nat)
    requires a < b
    ensures Pow2(b) >= 2 * Pow2(a) && (b > a + 1 ==> Pow2(b) >= 4 * Pow2(a))
  {
    PowMonotone(a + 1, b);
    if b > a + 1 { PowMonotone(a + 2, b); assert Pow2(a + 2) == 2 * Pow2(a + 1); }
  }

  lemma {:induction false} PowAdd(a: nat, b: nat)
    ensures Pow2(a + b) == Pow2(a) * Pow2(b)
  {
    if a > 0 {
      PowAdd(a - 1, b);
      assert Pow2(a) * Pow2(b) == 2 * (Pow2(a - 1) * Pow2(b));
    }
  }

  lemma Powers()
    ensures Pow2(2) == 4 && Pow2(4) == 0x10 && Pow2(8) == 0x100 && Pow2(16) == 0x1_0000 && Pow2(32) == 0x1_0000_0000
    ensures Pow2(64) == 0x1_0000_0000_0000_0000
  {
    assert Pow2(4) == 4 * Pow2(2);
    assert Pow2(8) == 16 * Pow2(4);
    PowAdd(8, 8);
    PowAdd(16, 16);
    PowAdd(32, 32);
  }
}
