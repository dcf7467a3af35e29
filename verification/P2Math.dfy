/** The power-of-two macros on 64-bit words, including P2END at a size that is no power of two. */
module P2Math {
  import opened Arithmetic

  const U64: nat := 0x1_0000_0000_0000_0000

  /** Bitwise and. */
  function And(a: nat, b: nat): nat
    decreases a
  {
    if a == 0 then 0 else 2 * And(a / 2, b / 2) + (a % 2) * (b % 2)
  }

  function Neg(x: nat): nat { (U64 - x) % U64 }

  function Not(x: nat): nat
    requires x < U64
  {
    U64 - 1 - x
  }

  function P2Align(x: nat, a: nat): nat { And(x, Neg(a)) }

  function P2RoundUp(x: nat, a: nat): nat { Neg(P2Align(Neg(x), a)) }

  function P2End(x: nat, a: nat): nat
    requires x < U64
  {
    Neg(P2Align(Not(x), a))
  }

  // ---- and ----

  lemma {:induction false} AndLe(a: nat, b: nat)
    ensures And(a, b) <= a && And(a, b) <= b
    decreases a
  {
    if a > 0 { AndLe(a / 2, b / 2); }
  }

  /** The bits a mask keeps and the bits it drops. */
  lemma {:induction false} AndSplit(a: nat, k: nat, n: nat)
    requires a < Pow2(n) && k < Pow2(n)
    ensures And(a, k) + And(a, Pow2(n) - 1 - k) == a
  {
    if n > 0 && a > 0 {
      var m := Pow2(n) - 1 - k;
      AndSplit(a / 2, k / 2, n - 1);
      assert m / 2 == Pow2(n - 1) - 1 - k / 2 && m % 2 == 1 - k % 2;
      assert (a % 2) * (k % 2) + (a % 2) * (m % 2) == a % 2;
    }
  }

  /** A mask whose low j bits are all set keeps the low j bits. */
  lemma {:induction false} AndLow(a: nat, k: nat, j: nat)
    requires k % Pow2(j) == Pow2(j) - 1
    ensures And(a, k) % Pow2(j) == a % Pow2(j)
    decreases j
  {
    if j > 0 && a > 0 {
      HalfMod(k, j);
      AndLow(a / 2, k / 2, j - 1);
      HalfMod(a, j);
      HalfMod(And(a, k), j);
      assert And(a, k) / 2 == And(a / 2, k / 2) && And(a, k) % 2 == a % 2;
    }
  }

  lemma HalfMod(a: nat, j: nat)
    requires j > 0
    ensures a % Pow2(j) == 2 * (a / 2 % Pow2(j - 1)) + a % 2
  {
    var p, h := Pow2(j - 1), a / 2;
    assert h == h / p * p + h % p;
    assert 2 * (h / p * p) == h / p * (2 * p);
    DivUnique(a, 2 * p, h / p, 2 * (h % p) + a % 2);
  }

  lemma AndMask(a: nat, j: nat)
    ensures And(a, Pow2(j) - 1) == a % Pow2(j)
  {
    DivUnique(Pow2(j) - 1, Pow2(j), 0, Pow2(j) - 1);
    AndLow(a, Pow2(j) - 1, j);
    AndLe(a, Pow2(j) - 1);
    DivUnique(And(a, Pow2(j) - 1), Pow2(j), 0, And(a, Pow2(j) - 1));
  }

  lemma AndNeg(y: nat, s: nat)
    requires y < U64 && 0 < s < U64
    ensures And(y, Neg(s)) == y - And(y, s - 1)
  {
    Powers();
    AndSplit(y, s - 1, 64);
  }

  // ---- at powers of two ----

  function Up(x: nat, a: nat): nat
    requires a > 0
  {
    (x + a - 1) / a * a
  }

  lemma AlignExact(x: nat, j: nat)
    requires x < U64 && j < 64
    ensures P2Align(x, Pow2(j)) == x - x % Pow2(j)
  {
    PowBelow(j);
    AndNeg(x, Pow2(j));
    AndMask(x, j);
  }

  lemma PowBelow(j: nat)
    requires j < 64
    ensures 0 < Pow2(j) < U64 && U64 % Pow2(j) == 0 && U64 == U64 / Pow2(j) * Pow2(j)
  {
    Powers();
    PowGap(j, 64);
    PowAdd(64 - j, j);
    DivUnique(U64, Pow2(j), Pow2(64 - j), 0);
  }

  /** What is needed to reach the next multiple. */
  lemma UpExact(x: nat, a: nat)
    requires a > 0
    ensures Up(x, a) % a == 0 && x <= Up(x, a) < x + a
    ensures x % a == 0 ==> Up(x, a) == x
    ensures x % a != 0 ==> Up(x, a) == x - x % a + a
  {
    var q, r := x / a, x % a;
    assert x == q * a + r;
    if r == 0 {
      DivUnique(x + a - 1, a, q, a - 1);
    } else {
      assert (q + 1) * a == q * a + a;
      DivUnique(x + a - 1, a, q + 1, r - 1);
    }
    DivUnique(Up(x, a), a, (x + a - 1) / a, 0);
  }

  lemma ModLe(y: nat, a: nat)
    requires a > 0
    ensures y % a <= y
  {
    assert y == y / a * a + y % a;
    MulNat(y / a, a);
  }

  lemma NegOfRest(x: nat, r: nat)
    requires 0 < x < U64 && r <= U64 - x
    ensures Neg(x) == U64 - x && Neg(U64 - x - r) == (x + r) % U64
  {
  }

  lemma RoundUpForm(x: nat, j: nat)
    requires 0 < x < U64 && j < 64
    ensures P2RoundUp(x, Pow2(j)) == (x + (U64 - x) % Pow2(j)) % U64
  {
    var y, a := U64 - x, Pow2(j);
    assert P2Align(y, a) == y - y % a by { AlignExact(y, j); }
    ModLe(y, a);
    NegOfRest(x, y % a);
  }

  lemma ModWhole(x: nat)
    requires x <= U64
    ensures x % U64 == if x == U64 then 0 else x
  {
  }

  lemma RoundUpZero(j: nat)
    ensures Up(0, Pow2(j)) == 0 && P2RoundUp(0, Pow2(j)) == 0
  {
    DivUnique(Pow2(j) - 1, Pow2(j), 0, Pow2(j) - 1);
  }

  /** Rounding up wraps to 0 exactly when the multiple is 2^64. */
  lemma RoundUpExact(x: nat, j: nat)
    requires x < U64 && j < 64
    ensures Up(x, Pow2(j)) <= U64 && P2RoundUp(x, Pow2(j)) == if Up(x, Pow2(j)) == U64 then 0 else Up(x, Pow2(j))
  {
    if x == 0 {
      RoundUpZero(j);
    } else {
      var a := Pow2(j);
      assert 0 < a < U64 && U64 % a == 0 by { PowBelow(j); }
      assert Up(x, a) <= U64 by { UpBelow(x, a); }
      assert x + (U64 - x) % a == Up(x, a) by { UpByNeg(x, a); }
      assert P2RoundUp(x, a) == Up(x, a) % U64 by { RoundUpForm(x, j); }
      ModWhole(Up(x, a));
    }
  }

  lemma UpByNeg(x: nat, a: nat)
    requires 0 < x < U64 && 0 < a < U64 && U64 % a == 0
    ensures x + (U64 - x) % a == Up(x, a)
  {
    UpExact(x, a);
    NegMod(x, a);
  }

  lemma NegMod(x: nat, a: nat)
    requires 0 < x < U64 && 0 < a < U64 && U64 % a == 0
    ensures (U64 - x) % a == if x % a == 0 then 0 else a - x % a
  {
    var q, r, n := x / a, x % a, U64 / a;
    assert x == q * a + r && U64 == n * a;
    if r == 0 {
      assert (n - q) * a == n * a - q * a;
      DivUnique(U64 - x, a, n - q, 0);
    } else {
      assert (n - q - 1) * a == n * a - q * a - a;
      DivUnique(U64 - x, a, n - q - 1, a - r);
    }
  }

  lemma UpBelow(x: nat, a: nat)
    requires x < U64 && 0 < a && U64 % a == 0
    ensures Up(x, a) <= U64
  {
    UpExact(x, a);
    var m, n := Up(x, a) / a, U64 / a;
    assert Up(x, a) == m * a && U64 == n * a;
    assert m * a < (n + 1) * a by { assert (n + 1) * a == n * a + a; }
    MulLess(m, n + 1, a);
    MulMonotone(m, n, a);
  }

  lemma NotMod(x: nat, a: nat)
    requires x < U64 && 0 < a && U64 % a == 0
    ensures Not(x) % a == a - 1 - x % a
  {
    var q, r, n := x / a, x % a, U64 / a;
    assert x == q * a + r && U64 == n * a;
    assert (n - q - 1) * a == n * a - q * a - a;
    DivUnique(Not(x), a, n - q - 1, a - 1 - r);
  }

  lemma EndExact(x: nat, j: nat)
    requires x < U64 && j < 64
    ensures P2End(x, Pow2(j)) == (x - x % Pow2(j) + Pow2(j)) % U64
  {
    PowBelow(j);
    EndIs(x, Pow2(j));
    AndMask(Not(x), j);
    NotMod(x, Pow2(j));
  }

  lemma BlockStart(a: nat, block: nat, q: nat)
    requires q > 0 && block % q == 0 && block <= a < block + q
    ensures a - a % q == block
  {
    var m := block / q;
    assert block == m * q;
    DivUnique(a, q, m, a - block);
  }

  /** Any address of an aligned block leads to its start and to its end. */
  lemma AlignInBlock(a: nat, block: nat, j: nat)
    requires j < 64 && block % Pow2(j) == 0 && block <= a < block + Pow2(j) < U64
    ensures P2Align(a, Pow2(j)) == block
  {
    AlignExact(a, j);
    BlockStart(a, block, Pow2(j));
  }

  lemma EndInBlock(a: nat, block: nat, j: nat)
    requires j < 64 && block % Pow2(j) == 0 && block <= a < block + Pow2(j) < U64
    ensures P2End(a, Pow2(j)) == block + Pow2(j)
  {
    var q := Pow2(j);
    assert a - a % q == block by { BlockStart(a, block, q); }
    assert P2End(a, q) == (a - a % q + q) % U64 by { EndExact(a, j); }
    ModWhole(block + q);
  }

  // ---- P2END at any size ----

  lemma EndIs(x: nat, s: nat)
    requires x < U64 && 0 < s < U64
    ensures P2End(x, s) == (x + 1 + And(Not(x), s - 1)) % U64
  {
    AndNeg(Not(x), s);
    AndLe(Not(x), s - 1);
  }

  lemma Completes(x: nat, r: nat, q: nat)
    requires x < U64 && 0 < q && U64 % q == 0 && r % q == Not(x) % q
    ensures (x + 1 + r) % q == 0
  {
    SameRemainder(Not(x), r, q);
    var t, n := Not(x) / q - r / q, U64 / q;
    assert U64 == n * q;
    assert (n - t) * q == n * q - t * q;
    DivUnique(x + 1 + r, q, n - t, 0);
  }

  lemma EndMultiple(x: nat, s: nat, j: nat)
    requires j < 64 && x < U64 && s > 0 && s % Pow2(j) == 0
    ensures (x + 1 + And(Not(x), s - 1)) % Pow2(j) == 0
  {
    PowBelow(j);
    LastOfQuantum(s, Pow2(j));
    AndLow(Not(x), s - 1, j);
    Completes(x, And(Not(x), s - 1), Pow2(j));
  }

  lemma BelowNext(a: nat, b: nat, q: nat)
    requires q > 0 && a % q == 0 && b % q == 0 && a < b + q
    ensures a <= b
  {
    var m, n := a / q, b / q;
    assert a == m * q && b == n * q;
    assert (n + 1) * q == n * q + q;
    MulLess(m, n + 1, q);
    MulMonotone(m, n, q);
  }

  lemma SumMultiple(a: nat, b: nat, q: nat)
    requires q > 0 && a % q == 0 && b % q == 0
    ensures (a + b) % q == 0
  {
    var m, n := a / q, b / q;
    assert a == m * q && b == n * q;
    assert (m + n) * q == m * q + n * q;
    DivUnique(a + b, q, m + n, 0);
  }

  lemma BoundaryInside(block: nat, color: nat, s: nat, q: nat, r: nat)
    requires q > 0 && block % q == 0 && s % q == 0 && s > 0 && color < q && block + s + q <= U64
    requires r < s && (block + color + 1 + r) % q == 0
    ensures var e := (block + color + 1 + r) % U64; e % q == 0 && block < e <= block + s
  {
    SumMultiple(block, s, q);
    BelowNext(block + color + 1 + r, block + s, q);
  }

  /**
   * For a size that is a multiple of a power-of-two quantum, P2END of any address in the
   * first quantum of a block of that size is a quantum boundary inside the block or its end.
   */
  lemma EndInside(block: nat, color: nat, s: nat, j: nat)
    requires j < 64 && block % Pow2(j) == 0 && s % Pow2(j) == 0 && s > 0 && color < Pow2(j)
    requires block + s + Pow2(j) <= U64
    ensures var e := P2End(block + color, s); e % Pow2(j) == 0 && block < e <= block + s
  {
    var q, x := Pow2(j), block + color;
    assert x < U64 && s < U64;
    var r := And(Not(x), s - 1);
    assert P2End(x, s) == (block + color + 1 + r) % U64 by { EndIs(x, s); }
    assert r < s by { AndLe(Not(x), s - 1); }
    assert (block + color + 1 + r) % q == 0 by { EndMultiple(x, s, j); }
    BoundaryInside(block, color, s, q, r);
  }

  lemma LastOfQuantum(s: nat, q: nat)
    requires s > 0 && q > 0 && s % q == 0
    ensures (s - 1) % q == q - 1
  {
    var v := s / q;
    assert s == v * q;
    assert (v - 1) * q == v * q - q;
    DivUnique(s - 1, q, v - 1, q - 1);
  }
}
