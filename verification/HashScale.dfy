/** How large the allocated-address hash table becomes, and when a rescale is asked for. */
module HashScale {
  import opened Arithmetic

  const HASH_INITIAL: nat := 64            // UMEM_HASH_INITIAL
  const U32: nat := 0x1_0000_0000
  const U64: nat := 0x1_0000_0000_0000_0000

  /** Number of binary digits: what highbit counts. */
  function Bits(n: nat): nat { if n == 0 then 0 else 1 + Bits(n / 2) }

  lemma {:induction false} BitsBound(n: nat)
    requires n > 0
    ensures Bits(n) >= 1 && Pow2(Bits(n) - 1) <= n < Pow2(Bits(n))
  {
    if n > 1 { BitsBound(n / 2); }
  }

  lemma {:induction false} BitsShift(n: nat, k: nat)
    requires n >= Pow2(k)
    ensures Bits(n) == k + Bits(n / Pow2(k))
  {
    if k > 0 {
      BitsShift(n / 2, k - 1);
      HalfPow(n, k);
    }
  }

  lemma HalfPow(n: nat, k: nat)
    requires k > 0
    ensures n / Pow2(k) == n / 2 / Pow2(k - 1)
  {
    var b, q := Pow2(k - 1), n / 2;
    var p, r := q / b, q % b;
    assert q == p * b + r;
    assert p * (2 * b) == 2 * (p * b);
    DivUnique(n, 2 * b, p, 2 * r + n % 2);
  }

  /** highbit's mask tests are comparisons once the higher digits are gone. */
  lemma MaskTests(i: bv64)
    ensures (i & 0xffff_ffff_0000_0000 != 0) <==> i >= 0x1_0000_0000
    ensures i < 0x1_0000_0000 ==> ((i & 0xffff_0000 != 0) <==> i >= 0x1_0000)
    ensures i < 0x1_0000 ==> ((i & 0xff00 != 0) <==> i >= 0x100)
    ensures i < 0x100 ==> ((i & 0xf0 != 0) <==> i >= 0x10)
    ensures i < 0x10 ==> ((i & 0xc != 0) <==> i >= 4)
    ensures i < 4 ==> ((i & 2 != 0) <==> i >= 2)
  {
  }

  lemma Digits(i: nat, m: nat)
    requires 0 < m <= i < m * m
    ensures 0 < i / m < m
  {
    DivAtLeast(i, m, 1);
    var j := i / m;
    assert j * m <= i by { assert i == j * m + i % m; }
    if j >= m { MulMonotone(m, j, m); }
  }

  /** One test of highbit: when any digit from the k-th up is set, count k and shift them down. */
  method Narrow(i: nat, k: nat, m: nat, h: nat) returns (j: nat, g: nat)
    requires m == Pow2(k) && 0 < i < m * m
    ensures 0 < j < m && g + Bits(j) == h + Bits(i)
  {
    if i >= m {
      BitsShift(i, k);
      j, g := i / m, h + k;
      Digits(i, m);
    } else {
      j, g := i, h;
    }
  }

  /** highbit counts the digits of every 64-bit number. */
  method Highbit(arg: nat) returns (h: nat)
    requires arg < U64
    ensures h == Bits(arg)
  {
    if arg == 0 { return 0; }
    Powers();
    var i: nat := arg;
    h := 1;
    i, h := Narrow(i, 32, 0x1_0000_0000, h);
    i, h := Narrow(i, 16, 0x1_0000, h);
    i, h := Narrow(i, 8, 0x100, h);
    i, h := Narrow(i, 4, 0x10, h);
    i, h := Narrow(i, 2, 4, h);
    assert Bits(1) == 1 && Bits(2) == 2 && Bits(3) == 2;
    if i >= 2 {
      h := h + 1;
    }
  }

  // ---- umem_hash_rescale, umem_cache_update ----

  /** The size umem_hash_rescale means for `b` buffers. */
  function Wanted(b: nat): nat
  {
    BitsOfSum(b);
    var p := Pow2(Bits(3 * b + 4) - 2);
    if p > HASH_INITIAL then p else HASH_INITIAL
  }

  lemma BitsOfSum(b: nat)
    ensures Bits(3 * b + 4) >= 3
  {
    assert Bits(3 * b + 4) == 1 + Bits((3 * b + 4) / 2);
    assert Bits((3 * b + 4) / 2) == 1 + Bits((3 * b + 4) / 2 / 2);
  }

  /** A value an int can have. */
  predicate IsInt(x: int) { -0x8000_0000 <= x < 0x8000_0000 }

  /** 1 << k in int arithmetic; `wild` is the value where C leaves it undefined. */
  function Shift(k: int, wild: int): int { if 0 <= k <= 30 then Pow2(k) else wild }

  /** The size it computes: a sum in 64 bits and a shift in int. */
  function Computed(b: nat, wild: int): nat {
    var p := Shift(Bits((3 * b + 4) % U64) - 2, wild);
    if p > HASH_INITIAL then p else HASH_INITIAL
  }

  /** The size in use after umem_hash_rescale, when the new table can be allocated. */
  function Rescaled(was: nat, b: nat, wild: int): nat {
    var size := Computed(b, wild);
    if was / 2 <= size && size <= 2 * was then was else size
  }

  /** umem_cache_update asks for a rescale of a table of `size` buckets. */
  predicate Asks(size: nat, b: nat)
    requires size > 0
  {
    var mask := size - 1;
    b > 2 * mask || (b < mask / 2 && mask > HASH_INITIAL)
  }

  /** The size meant is 64, or between a quarter (not included) and a half of 3b + 4. */
  lemma WantedRange(b: nat)
    ensures Wanted(b) >= HASH_INITIAL
    ensures Wanted(b) > HASH_INITIAL ==> 3 * b + 4 < 4 * Wanted(b) && 2 * Wanted(b) <= 3 * b + 4
    ensures 3 * b + 4 < 4 * Wanted(b)
  {
    var x := 3 * b + 4;
    BitsOfSum(b);
    BitsBound(x);
    assert Pow2(Bits(x) - 1) == 2 * Pow2(Bits(x) - 2);
  }

  /** The shift is inside an int exactly while 3b + 4 fits in 32 bits. */
  lemma ShiftFits(b: nat)
    ensures Bits(3 * b + 4) - 2 <= 30 <==> 3 * b + 4 < U32
  {
    var x := 3 * b + 4;
    BitsBound(x);
    Powers();
    if Bits(x) > 32 { PowMonotone(32, Bits(x) - 1); } else { PowMonotone(Bits(x), 32); }
  }

  lemma ComputedIsWanted(b: nat, wild: int)
    requires 3 * b + 4 < U32
    ensures Computed(b, wild) == Wanted(b)
  {
    ShiftFits(b);
    BitsOfSum(b);
    assert (3 * b + 4) % U64 == 3 * b + 4;
  }

  /** Past that range, a shift that comes out as 0 leaves far too small a size. */
  lemma ComputedSmall(b: nat)
    requires 3 * b + 4 >= U32
    ensures Computed(b, 0) <= 0x4000_0000 < 0x8000_0000 <= Wanted(b) && b > 2 * (Computed(b, 0) - 1)
    ensures !(b < (Computed(b, 0) - 1) / 2)
  {
    WantedRange(b);
    SmallShift((3 * b + 4) % U64);
    WantedBig(b);
    var x := (3 * b + 4) % U64;
    if x == 3 * b + 4 {
      ShiftFits(b);
      assert Computed(b, 0) == HASH_INITIAL;
    }
  }

  lemma SmallShift(x: nat)
    ensures Shift(Bits(x) - 2, 0) <= 0x4000_0000
  {
    var k := Bits(x) - 2;
    if 0 <= k <= 30 {
      PowMonotone(k, 30);
      Powers();
      assert Pow2(32) == 4 * Pow2(30);
    }
  }

  lemma WantedBig(b: nat)
    requires 3 * b + 4 >= U32
    ensures Wanted(b) >= 0x8000_0000
  {
    ShiftFits(b);
    assert Pow2(31) == 0x8000_0000 by { Powers(); assert Pow2(32) == 2 * Pow2(31); }
    PowMonotone(31, Bits(3 * b + 4) - 2);
  }

  /** The code computes the size it means, whatever an undefined shift gives, exactly up to 3b + 4 < 2^32. */
  lemma SizeExact(b: nat)
    ensures (forall wild :: IsInt(wild) ==> Computed(b, wild) == Wanted(b)) <==> 3 * b + 4 < U32
  {
    if 3 * b + 4 < U32 {
      forall wild ensures Computed(b, wild) == Wanted(b) { ComputedIsWanted(b, wild); }
    } else {
      ComputedSmall(b);
      assert IsInt(0) && Computed(b, 0) != Wanted(b);
    }
  }

  /** 1431655764 buffers: with the shift wrapping to the sign bit the table gets 64 buckets, and asks at once. */
  lemma SizeWraps()
    ensures var b := 1431655764; 3 * b + 4 == U32 && Computed(b, -0x8000_0000) == 64 && Asks(64, b)
  {
    ShiftFits(1431655764);
    assert (3 * 1431655764 + 4) % U64 == U32;
  }

  /**
   * A table of the computed size is not asked to rescale while the buffer count is the same:
   * this holds, whatever an undefined shift gives, exactly up to 3b + 4 < 2^32.
   */
  lemma NoThrash(b: nat)
    ensures (forall wild :: IsInt(wild) ==> !Asks(Computed(b, wild), b)) <==> 3 * b + 4 < U32
  {
    if 3 * b + 4 < U32 {
      forall wild ensures !Asks(Computed(b, wild), b) {
        ComputedIsWanted(b, wild);
        Settled(b);
      }
    } else {
      ComputedSmall(b);
      assert IsInt(0) && Asks(Computed(b, 0), b);
    }
  }

  lemma Settled(b: nat)
    ensures !Asks(Wanted(b), b)
  {
    WantedRange(b);
    EvenSize(b);
  }

  lemma EvenSize(b: nat)
    ensures Wanted(b) % 2 == 0
  {
    BitsOfSum(b);
    assert Pow2(Bits(3 * b + 4) - 2) == 2 * Pow2(Bits(3 * b + 4) - 3);
  }

  ghost predicate IsPow2(n: nat) { exists k: nat :: n == Pow2(k) }

  /** Two powers of two within a factor of two are equal or one is twice the other. */
  lemma Neighbours(a: nat, b: nat)
    requires Pow2(a) <= 2 * Pow2(b) && Pow2(b) <= 2 * Pow2(a)
    ensures a == b || a == b + 1 || b == a + 1
  {
    if a < b { PowGap(a, b); } else if b < a { PowGap(b, a); }
  }

  lemma WantedIsPow2(b: nat)
    ensures IsPow2(Wanted(b))
  {
    BitsOfSum(b);
    assert Pow2(6) == 64 by { assert Pow2(4) == 4 * Pow2(2); assert Pow2(6) == 4 * Pow2(4); }
  }

  /** With 130 buffers in a table of 64 buckets a rescale is asked for, does nothing, and is asked for again. */
  lemma StillAsks(wild: int)
    ensures Asks(64, 130) && Rescaled(64, 130, wild) == 64
  {
    ComputedIsWanted(130, wild);
    assert Pow2(8) == 256 && Pow2(9) == 512 && Pow2(7) == 128 by {
      Powers();
      assert Pow2(9) == 2 * Pow2(8) && Pow2(8) == 2 * Pow2(7);
    }
    WantedIs(130, 9);
  }

  lemma WantedIs(b: nat, n: nat)
    requires n >= 9 && Pow2(n - 1) <= 3 * b + 4 < Pow2(n)
    ensures Wanted(b) == Pow2(n - 2)
  {
    var x := 3 * b + 4;
    BitsBound(x);
    if Bits(x) < n { PowMonotone(Bits(x), n - 1); } else if Bits(x) > n { PowMonotone(n, Bits(x) - 1); }
    PowMonotone(7, n - 2);
    assert Pow2(7) == 128 by { assert Pow2(7) == 8 * Pow2(4); assert Pow2(4) == 16; }
  }

  /**
   * After a rescale the test still asks for one exactly when the early return kept a table
   * half as large as the computed size, or twice as large, and the count is past the test's
   * own threshold.  Past 3b + 4 < 2^32 it asks for ever when the shift gives 64 or less.
   */
  lemma StillAsksExactly(was: nat, b: nat, wild: int)
    requires IsPow2(was) && was >= HASH_INITIAL
    ensures 3 * b + 4 < U32 ==>
              (Asks(Rescaled(was, b, wild), b) <==>
               || (2 * was - 1 <= b && 3 * b + 4 < 8 * was)
               || (was >= 128 && b < was / 2 - 1 && (3 * b + 4 >= was || was == 128)))
    ensures U32 <= 3 * b + 4 < U64 && wild <= HASH_INITIAL ==> Asks(Rescaled(was, b, wild), b)
  {
    if 3 * b + 4 < U32 {
      ComputedIsWanted(b, wild);
      InRange(was, b);
    } else if 3 * b + 4 < U64 {
      ShiftFits(b);
      assert (3 * b + 4) % U64 == 3 * b + 4;
    }
  }

  lemma InRange(was: nat, b: nat)
    requires IsPow2(was) && was >= HASH_INITIAL
    ensures Asks(if was / 2 <= Wanted(b) && Wanted(b) <= 2 * was then was else Wanted(b), b) <==>
              || (2 * was - 1 <= b && 3 * b + 4 < 8 * was)
              || (was >= 128 && b < was / 2 - 1 && (3 * b + 4 >= was || was == 128))
  {
    WantedRange(b);
    Settled(b);
    WantedIsPow2(b);
    var i: nat, j: nat :| was == Pow2(i) && Wanted(b) == Pow2(j);
    var w := Wanted(b);
    OldShape(i);
    if was == w || !(was / 2 <= w && w <= 2 * was) {
      OffRange(i, j, b);
    } else {
      Neighbours(i, j);
      KeptExactly(was, w, b);
    }
  }

  lemma OldShape(i: nat)
    requires Pow2(i) >= HASH_INITIAL
    ensures Pow2(i) % 2 == 0 && (Pow2(i) > HASH_INITIAL ==> Pow2(i) >= 128)
  {
    assert Pow2(6) == 64 by { assert Pow2(4) == 4 * Pow2(2); assert Pow2(6) == 4 * Pow2(4); }
    if i > 6 { PowMonotone(7, i); assert Pow2(7) == 2 * Pow2(6); }
    if i < 6 { PowGap(i, 6); }
  }

  /** Kept though the computed size is half or twice as large. */
  lemma KeptExactly(was: nat, w: nat, b: nat)
    requires was >= HASH_INITIAL && w >= HASH_INITIAL && was % 2 == 0 && (was > HASH_INITIAL ==> was >= 128)
    requires w == 2 * was || was == 2 * w
    requires 3 * b + 4 < 4 * w && (w > HASH_INITIAL ==> 2 * w <= 3 * b + 4)
    ensures Asks(was, b) <==>
              || (2 * was - 1 <= b && 3 * b + 4 < 8 * was)
              || (was >= 128 && b < was / 2 - 1 && (3 * b + 4 >= was || was == 128))
  {
  }

  /** Replaced, or already of the computed size: the count is outside both ranges. */
  lemma OffRange(i: nat, j: nat, b: nat)
    requires Pow2(i) >= HASH_INITIAL && Wanted(b) == Pow2(j)
    requires Pow2(i) == Pow2(j) || !(Pow2(i) / 2 <= Pow2(j) && Pow2(j) <= 2 * Pow2(i))
    ensures !(2 * Pow2(i) - 1 <= b && 3 * b + 4 < 8 * Pow2(i))
    ensures !(Pow2(i) >= 128 && b < Pow2(i) / 2 - 1 && (3 * b + 4 >= Pow2(i) || Pow2(i) == 128))
  {
    WantedRange(b);
    if i < j { PowGap(i, j); } else if j < i { PowGap(j, i); }
  }

  /** The new_size of umem_hash_rescale. */
  method NewSize(buftotal: nat, wild: int) returns (size: nat)
    requires buftotal < U64
    ensures size == Computed(buftotal, wild)
    ensures 3 * buftotal + 4 < U32 ==> size == Wanted(buftotal)
  {
    var h := Highbit((3 * buftotal + 4) % U64);
    var shift := wild;
    if 2 <= h <= 32 {
      var k: nat := h - 2;
      shift := 1;
      while k > 0
        invariant k <= h - 2 && shift == Pow2(h - 2 - k)
      {
        shift, k := shift * 2, k - 1;
      }
    }
    size := if shift > HASH_INITIAL then shift else HASH_INITIAL;
    if 3 * buftotal + 4 < U32 { ComputedIsWanted(buftotal, wild); }
  }
}
