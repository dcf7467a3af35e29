/**
 * Slab geometry: the chunk size, slab size and colours umem_cache_create chooses, where the
 * buffers of a slab lie, and how the slab is found again from one of its addresses.
 */
module SlabGeometry {
  import opened Collections
  import opened Arithmetic
  import opened P2Math

  const ALIGN: nat := 8                    // UMEM_ALIGN
  const VOID_FRACTION: nat := 8            // UMEM_VOID_FRACTION
  const MIN_OBJECTS: nat := 16             // UMEM_MIN_SLAB_OBJECTS
  const CEILING: nat := 65536              // UMEM_MIN_SLAB_CEILING
  const LONG_MAX: nat := 0x7fff_ffff_ffff_ffff
  const BUFTAG: nat := 24                  // sizeof (umem_buftag_t)
  const HEADER: nat := 72                  // sizeof (umem_slab_t)

  datatype Geo = Geo(chunksize: nat, align: nat, slabsize: nat, mincolor: nat, maxcolor: nat, hashed: bool)

  // ---- chunk size ----

  /** The rounding umem_cache_create means, without wrap-around; `tag` is 0 or a buftag. */
  function Rounded(bufsize: nat, align: nat, tag: nat): nat
    requires align > 0
  {
    Up((if align >= ALIGN then Up(bufsize, ALIGN) else bufsize) + tag, align)
  }

  /** As computed in 64 bits, with the test for overflow; None is ENOMEM. */
  function ChunkSize(bufsize: nat, i: nat, tag: nat): Option<nat> {
    var align := Pow2(i);
    var c1 := if align >= ALIGN then P2RoundUp(bufsize, ALIGN) else bufsize;
    var c2 := (c1 + tag) % U64;
    var c3 := P2RoundUp(c2, align);
    if c3 < bufsize then None else Some(c3)
  }

  lemma EightIsPow()
    ensures Pow2(3) == 8
  {
  }

  /** The sum before the last rounding, as computed and as meant. */
  lemma SecondStage(b: nat, tag: nat, e1: nat)
    requires 0 < b < U64 && tag <= BUFTAG && b <= e1 < b + ALIGN && e1 <= U64
    ensures var c2 := ((if e1 == U64 then 0 else e1) + tag) % U64;
            if e1 + tag < U64 then c2 == e1 + tag else c2 <= BUFTAG
    ensures e1 + tag >= U64 ==> b > U64 - BUFTAG - ALIGN
  {
  }

  lemma LastStage(x: nat, i: nat)
    requires x < U64 && i <= 62
    ensures var a := Pow2(i);
            && 0 < a <= 0x4000_0000_0000_0000 && x <= Up(x, a) < x + a && Up(x, a) <= U64
            && P2RoundUp(x, a) == if Up(x, a) == U64 then 0 else Up(x, a)
  {
    RoundUpExact(x, i);
    UpExact(x, Pow2(i));
    PowBig();
    PowMonotone(i, 62);
  }

  lemma LastRounding(b: nat, x: nat, i: nat, c2: nat)
    requires 0 < b <= x && b < U64 && i <= 62 && c2 < U64
    requires if x < U64 then c2 == x else c2 <= BUFTAG && b > U64 - BUFTAG - ALIGN
    ensures var c3 := P2RoundUp(c2, Pow2(i));
            && (c3 < b <==> Up(x, Pow2(i)) >= U64)
            && (c3 >= b ==> c3 == Up(x, Pow2(i)))
  {
    LastStage(c2, i);
    assert x <= Up(x, Pow2(i)) by { UpExact(x, Pow2(i)); }
    LastCases(b, x, Pow2(i), c2, Up(c2, Pow2(i)), Up(x, Pow2(i)), P2RoundUp(c2, Pow2(i)));
  }

  lemma LastCases(b: nat, x: nat, a: nat, c2: nat, up2: nat, up: nat, c3: nat)
    requires b <= x && b < U64 && 0 < a <= 0x4000_0000_0000_0000 && x <= up
    requires c2 <= up2 < c2 + a && c3 == if up2 == U64 then 0 else up2
    requires if x < U64 then c2 == x && up2 == up <= U64 else c2 <= BUFTAG && b > U64 - BUFTAG - ALIGN
    requires b > 0
    ensures c3 < b <==> up >= U64
    ensures c3 >= b ==> c3 == up
  {
  }

  /** The test refuses exactly the sizes whose chunk does not fit in 64 bits. */
  lemma ChunkSizeExact(bufsize: nat, i: nat, tag: nat)
    requires 0 < bufsize < U64 && i <= 62 && (tag == 0 || tag == BUFTAG)
    ensures var c := Rounded(bufsize, Pow2(i), tag);
            ChunkSize(bufsize, i, tag) == if c < U64 then Some(c) else None
  {
    var wide := Pow2(i) >= ALIGN;
    var e1, c1 := if wide then Up(bufsize, ALIGN) else bufsize, if wide then P2RoundUp(bufsize, ALIGN) else bufsize;
    assert bufsize <= e1 < bufsize + ALIGN && e1 <= U64 && c1 == (if e1 == U64 then 0 else e1) by {
      if wide { FirstStage(bufsize); }
    }
    var c2 := (c1 + tag) % U64;
    assert if e1 + tag < U64 then c2 == e1 + tag else c2 <= BUFTAG && bufsize > U64 - BUFTAG - ALIGN by {
      SecondStage(bufsize, tag, e1);
    }
    LastRounding(bufsize, e1 + tag, i, c2);
  }

  lemma FirstStage(b: nat)
    requires 0 < b < U64
    ensures b <= Up(b, ALIGN) < b + ALIGN && Up(b, ALIGN) <= U64
    ensures P2RoundUp(b, ALIGN) == if Up(b, ALIGN) == U64 then 0 else Up(b, ALIGN)
  {
    EightIsPow();
    RoundUpExact(b, 3);
    UpExact(b, ALIGN);
  }

  lemma PowBig()
    ensures Pow2(62) == 0x4000_0000_0000_0000
  {
    Powers();
    assert Pow2(64) == 2 * Pow2(63) && Pow2(63) == 2 * Pow2(62);
  }

  // ---- slab size of a hashed cache ----

  /** Slab for `k` chunks, and its waste per object. */
  function SlabFor(c: nat, q: nat, k: nat): nat
    requires q > 0
  {
    Up(c * k, q)
  }

  function Waste(c: nat, slab: nat): nat
    requires 0 < c <= slab
  {
    slab % c / (slab / c)
  }

  lemma SlabForHolds(c: nat, q: nat, k: nat)
    requires c > 0 && q > 0 && k > 0
    ensures SlabFor(c, q, k) >= c * k >= c && SlabFor(c, q, k) / c >= k && SlabFor(c, q, k) % q == 0
  {
    UpExact(c * k, q);
    MulMonotone(1, k, c);
    DivAtLeast(SlabFor(c, q, k), c, k);
  }

  /** Between k and the number of chunks that fit, every count needs the same slab: skipping them loses nothing. */
  lemma SameSlab(c: nat, q: nat, k: nat, m: nat)
    requires c > 0 && q > 0 && 0 < k <= m <= SlabFor(c, q, k) / c
    ensures SlabFor(c, q, m) == SlabFor(c, q, k)
  {
    var s := SlabFor(c, q, k);
    UpExact(c * k, q);
    UpExact(c * m, q);
    MulMonotone(k, m, c);
    MulMonotone(m, s / c, c);
    BelowNext(SlabFor(c, q, m), s, q);
    BelowNext(s, SlabFor(c, q, m), q);
  }

  lemma {:induction false} SlabForGrows(c: nat, q: nat, k: nat, m: nat)
    requires q > 0 && k <= m
    ensures SlabFor(c, q, k) <= SlabFor(c, q, m)
  {
    MulMonotone(k, m, c);
    UpExact(c * k, q);
    UpExact(c * m, q);
    BelowNext(SlabFor(c, q, k), SlabFor(c, q, m), q);
  }

  ghost predicate LeastWaste(c: nat, q: nat, waste: nat, k: nat)
    requires c > 0 && q > 0
  {
    k > 0 && SlabFor(c, q, k) >= c && waste <= Waste(c, SlabFor(c, q, k))
  }

  /** No count from 1 to 8 wastes less per object. */
  ghost predicate Best(c: nat, q: nat, slab: nat)
    requires c > 0 && q > 0
  {
    slab >= c && forall k :: 1 <= k <= VOID_FRACTION ==> LeastWaste(c, q, Waste(c, slab), k)
  }

  lemma AtLeastTimes(x: nat, c: nat, n: nat)
    requires c > 0
    ensures x / c >= n ==> x >= c * n
  {
    if x / c >= n { MulMonotone(n, x / c, c); }
  }

  /** One turn of the best-fit loop. */
  method TryCount(c: nat, j: nat, chunks: nat) returns (slab: Option<nat>)
    requires 0 < c < U64 && j <= 61 && 1 <= chunks <= VOID_FRACTION
    ensures slab == if SlabFor(c, Pow2(j), chunks) < U64 then Some(SlabFor(c, Pow2(j), chunks)) else None
  {
    var q := Pow2(j);
    var s := P2RoundUp(c * chunks % U64, q);
    RoundComputed(c * chunks, j) by { MulMonotone(1, chunks, c); }
    CountOverflow(c, c * chunks, chunks, s, SlabFor(c, q, chunks));
    slab := if s / chunks < c then None else Some(s);
  }

  /** The division test sees every overflow of the product and of the rounding. */
  lemma CountOverflow(c: nat, x: nat, k: nat, s: nat, up: nat)
    requires 0 < c && 0 < k && x == c * k && s < U64 && x <= up
    requires x < U64 ==> s == if up == U64 then 0 else up
    ensures s / k < c <==> up >= U64
    ensures s / k >= c ==> s == up
  {
    assert 0 < x by { MulMonotone(1, k, c); }
    assert s / k >= c <==> s >= x by {
      AtLeastTimes(s, k, c);
      if s >= x { DivAtLeast(s, k, c); }
    }
  }

  /** Counts tried so far, with the least waste among them. */
  ghost predicate Tried(c: nat, q: nat, waste: nat, upto: nat)
    requires c > 0 && q > 0
  {
    forall k :: 1 <= k < upto ==> SlabFor(c, q, k) < U64 && LeastWaste(c, q, waste, k)
  }

  lemma TriedMore(c: nat, q: nat, waste: nat, waste': nat, k: nat)
    requires c > 0 && q > 0 && k > 0 && Tried(c, q, waste, k) && SlabFor(c, q, k) < U64
    requires SlabFor(c, q, k) >= c && waste' <= waste && waste' <= Waste(c, SlabFor(c, q, k))
    ensures Tried(c, q, waste', SlabFor(c, q, k) / c + 1)
  {
    forall m | 1 <= m < SlabFor(c, q, k) / c + 1 ensures SlabFor(c, q, m) < U64 && LeastWaste(c, q, waste', m) {
      if m < k { assert LeastWaste(c, q, waste, m); } else { SameSlab(c, q, k, m); }
    }
  }

  /** Many chunks share the remainder of the slab. */
  lemma WasteSmall(c: nat, slab: nat, n: nat)
    requires 0 < c <= slab && slab / c >= n > 0
    ensures n * Waste(c, slab) < c
  {
    var r, m := slab % c, slab / c;
    assert r == r / m * m + r % m;
    MulMonotone(n, m, r / m);
  }

  lemma FirstWaste(c: nat, q: nat)
    requires c > 0 && q > 0
    ensures SlabFor(c, q, 1) >= c && Waste(c, SlabFor(c, q, 1)) < q
  {
    UpExact(c, q);
    var s := SlabFor(c, q, 1);
    WasteSmall(c, s, 1) by { DivAtLeast(s, c, 1); }
    if c >= q {
      var n := s / c;
      assert s == n * c + s % c;
      DivAtLeast(s, c, 1);
      MulMonotone(1, n, c);
      Shrinks(s % c, n);
    }
  }

  lemma Shrinks(x: nat, n: nat)
    requires n > 0
    ensures x / n <= x
  {
    assert x == x / n * n + x % n;
    MulMonotone(1, n, x / n);
  }

  /** Between turns of the best-fit loop. */
  ghost predicate Fitting(c: nat, q: nat, chunks: nat, minwaste: nat, bestfit: nat)
    requires c > 0 && q > 0
  {
    && chunks >= 1 && Tried(c, q, minwaste, chunks)
    && (chunks == 1 ==> minwaste == LONG_MAX)
    && (chunks > 1 ==> c <= bestfit < U64 && bestfit % q == 0 && minwaste == Waste(c, bestfit))
    && (chunks > VOID_FRACTION ==> 8 * minwaste < c)
  }

  lemma FitFacts(c: nat, q: nat, chunks: nat, slab: nat)
    requires c > 0 && 0 < q < LONG_MAX && chunks > 0 && slab == SlabFor(c, q, chunks)
    ensures slab >= c && slab / c >= chunks && slab % q == 0
    ensures chunks == 1 ==> Waste(c, slab) < LONG_MAX
    ensures slab / c >= VOID_FRACTION ==> 8 * Waste(c, slab) < c
  {
    SlabForHolds(c, q, chunks);
    if chunks == 1 { FirstWaste(c, q); }
    if slab / c >= VOID_FRACTION { WasteSmall(c, slab, VOID_FRACTION); }
  }

  lemma FitTurn(c: nat, q: nat, chunks: nat, minwaste: nat, bestfit: nat, slab: nat)
    requires c > 0 && 0 < q < LONG_MAX && chunks <= VOID_FRACTION && Fitting(c, q, chunks, minwaste, bestfit)
    requires slab == SlabFor(c, q, chunks) < U64
    ensures slab >= c && slab / c >= chunks
    ensures if Waste(c, slab) < minwaste then Fitting(c, q, slab / c + 1, Waste(c, slab), slab)
            else chunks > 1 && Fitting(c, q, slab / c + 1, minwaste, bestfit)
  {
    FitFacts(c, q, chunks, slab);
    var waste := Waste(c, slab);
    TriedMore(c, q, minwaste, if waste < minwaste then waste else minwaste, chunks);
  }

  lemma Fitted(c: nat, q: nat, chunks: nat, minwaste: nat, bestfit: nat)
    requires c > 0 && q > 0 && chunks > VOID_FRACTION && Fitting(c, q, chunks, minwaste, bestfit)
    ensures SlabFor(c, q, VOID_FRACTION) < U64 && Best(c, q, bestfit)
  {
  }

  /**
   * The best-fit loop: it skips the counts that need the slab just tried, and still finds the
   * least waste per object over all counts from 1 to 8, below an eighth of a chunk.
   */
  method BestFit(c: nat, j: nat) returns (r: Option<nat>)
    requires 0 < c < U64 && j <= 61
    ensures r.None? <==> SlabFor(c, Pow2(j), VOID_FRACTION) >= U64
    ensures r.Some? ==> c <= r.value < U64 && r.value % Pow2(j) == 0
    ensures r.Some? ==> Best(c, Pow2(j), r.value) && 8 * Waste(c, r.value) < c
  {
    var chunks: nat, minwaste: nat, bestfit: nat := 1, LONG_MAX, 0;
    ghost var q := Pow2(j);
    assert 0 < q < LONG_MAX by { PowBig(); PowMonotone(j, 62); }
    while chunks <= VOID_FRACTION
      invariant Fitting(c, q, chunks, minwaste, bestfit)
      decreases VOID_FRACTION + 1 - chunks
    {
      var slab := TryCount(c, j, chunks);
      if slab.None? {
        SlabForGrows(c, q, chunks, VOID_FRACTION);
        return None;
      }
      var slabsize := slab.value;
      FitTurn(c, q, chunks, minwaste, bestfit, slabsize);
      chunks := slabsize / c;
      var waste := slabsize % c / chunks;
      assert waste == Waste(c, slabsize);
      if waste < minwaste {
        minwaste, bestfit := waste, slabsize;
      }
      chunks := chunks + 1;
    }
    Fitted(c, q, chunks, minwaste, bestfit);
    r := Some(bestfit);
  }

  /** The rounding of a product reduced to 64 bits. */
  lemma RoundComputed(x: nat, j: nat)
    requires x > 0 && j <= 61
    ensures var s, up := P2RoundUp(x % U64, Pow2(j)), Up(x, Pow2(j));
            s < U64 && x <= up && (x < U64 ==> s == if up == U64 then 0 else up)
  {
    var y := x % U64;
    assert x < U64 ==> y == x;
    assert P2RoundUp(y, Pow2(j)) == if Up(y, Pow2(j)) == U64 then 0 else Up(y, Pow2(j)) by { RoundUpExact(y, j); }
    assert Up(y, Pow2(j)) <= U64 by { RoundUpExact(y, j); }
    assert x <= Up(x, Pow2(j)) by { UpExact(x, Pow2(j)); }
  }

  lemma RoundedIsMultiple(x: nat, j: nat)
    requires x < U64 && j < 64
    ensures P2RoundUp(x, Pow2(j)) % Pow2(j) == 0
  {
    var a := Pow2(j);
    assert P2RoundUp(x, a) == Up(x, a) || P2RoundUp(x, a) == 0 by { RoundUpExact(x, j); }
    assert Up(x, a) % a == 0 by { UpExact(x, a); }
    DivUnique(0, a, 0, 0);
  }

  lemma EnoughObjects(c: nat, slab: nat)
    requires c > 0 && slab / c >= MIN_OBJECTS
    ensures slab >= c && 8 * Waste(c, slab) < c
  {
    assert slab == slab / c * c + slab % c;
    MulMonotone(1, slab / c, c);
    WasteSmall(c, slab, MIN_OBJECTS);
  }

  /** A slab size the best-fit loop and the floor may leave: the floor where it fits, else the least waste. */
  ghost predicate WellFilled(c: nat, q: nat, s: nat)
    requires c > 0 && q > 0
  {
    && s >= c && 8 * Waste(c, s) < c
    && (SlabFor(c, q, MIN_OBJECTS) <= CEILING ==> s / c >= MIN_OBJECTS)
    && (Best(c, q, s) || (s == SlabFor(c, q, MIN_OBJECTS) <= CEILING))
  }

  /** The floor's size as computed, when the code may use it. */
  lemma FloorExact(c: nat, j: nat)
    requires 0 < c < U64 && j <= 61
    ensures var want, slab := P2RoundUp(c * MIN_OBJECTS % U64, Pow2(j)), SlabFor(c, Pow2(j), MIN_OBJECTS);
            && want < U64 && slab / c >= MIN_OBJECTS
            && (want / c >= MIN_OBJECTS && want <= CEILING <==> slab <= CEILING)
            && (slab <= CEILING ==> want == slab)
  {
    var x, q := c * MIN_OBJECTS, Pow2(j);
    var want, slab := P2RoundUp(x % U64, q), SlabFor(c, q, MIN_OBJECTS);
    assert slab / c >= MIN_OBJECTS && slab >= x by { SlabForHolds(c, q, MIN_OBJECTS); }
    RoundComputed(x, j);
    assert want / c >= MIN_OBJECTS ==> want >= x by { AtLeastTimes(want, c, MIN_OBJECTS); }
    FloorCases(c, x, want, slab);
  }

  lemma FloorCases(c: nat, x: nat, want: nat, slab: nat)
    requires 0 < c <= x <= slab && slab / c >= MIN_OBJECTS && want < U64
    requires x < U64 ==> want == if slab == U64 then 0 else slab
    requires want / c >= MIN_OBJECTS ==> want >= x
    ensures want / c >= MIN_OBJECTS && want <= CEILING <==> slab <= CEILING
    ensures slab <= CEILING ==> want == slab
  {
  }

  /** The span-density floor: 16 objects to a slab exactly where that stays within 64 KiB. */
  method Denser(c: nat, j: nat, bestfit: nat) returns (r: nat)
    requires 0 < c <= bestfit < U64 && j <= 61 && bestfit % Pow2(j) == 0 && 8 * Waste(c, bestfit) < c
    ensures c <= r < U64 && r % Pow2(j) == 0 && 8 * Waste(c, r) < c
    ensures var floor := SlabFor(c, Pow2(j), MIN_OBJECTS);
            r == if bestfit / c >= MIN_OBJECTS || floor > CEILING then bestfit else floor
    ensures SlabFor(c, Pow2(j), MIN_OBJECTS) <= CEILING ==> r / c >= MIN_OBJECTS
  {
    r := bestfit;
    if bestfit / c < MIN_OBJECTS {
      var want := P2RoundUp(c * MIN_OBJECTS % U64, Pow2(j));
      FloorExact(c, j);
      if want / c >= MIN_OBJECTS && want <= CEILING {
        RoundedIsMultiple(c * MIN_OBJECTS % U64, j);
        EnoughObjects(c, want);
        r := want;
      }
    }
  }

  // ---- the whole choice ----

  /** What decides the layout: creation flags, debugging flags, and the arena's quantum 2^j. */
  datatype Request = Request(
    bufsize: nat,
    align: Option<nat>,       // log2 of the alignment asked for; None for 0
    nohash: bool,
    notouch: bool,
    audit: bool,
    firewall: bool,
    tag: nat)

  /** The alignment used, as a power of two. */
  function Alignment(r: Request): nat {
    match r.align
    case None => if Up(r.bufsize, ALIGN) % U64 >= 16 then 4 else 3
    case Some(i) => if i < 3 && !r.notouch then 3 else i
  }

  /** Bytes of a slab available to chunks and colour. */
  function Room(g: Geo, hdr: nat): int { g.slabsize - (if g.hashed then 0 else hdr) }

  /** A layout every colour of which holds the same, positive number of aligned chunks. */
  ghost predicate GeoOk(g: Geo, q: nat, hdr: nat) {
    && q > 0 && g.align > 0 && q % g.align == 0
    && g.chunksize > 0 && g.chunksize % g.align == 0
    && g.slabsize > 0 && g.slabsize % q == 0 && (!g.hashed ==> g.slabsize == q)
    && g.mincolor % g.align == 0 && g.mincolor <= g.maxcolor < q
    && Room(g, hdr) >= g.mincolor + g.chunksize
    && g.maxcolor - g.mincolor <= (Room(g, hdr) - g.mincolor) % g.chunksize
  }

  /** Does the request go to the layout with the header inside the slab? */
  predicate Embedded(r: Request, c: nat, q: nat) {
    !r.firewall && (r.nohash || (!r.notouch && !r.audit && c < q / VOID_FRACTION))
  }

  /** Sums the code does not test for overflow. */
  predicate SumsFit(r: Request, c: nat, q: nat, hdr: nat)
    requires q > 0
  {
    (r.firewall ==> Up(c, q) < U64) && (Embedded(r, c, q) ==> c + hdr < U64)
  }

  function Capped(g: Geo, q: nat): Geo
    requires q > 0
  {
    if g.maxcolor >= q then g.(maxcolor := q - 1) else g
  }

  function EmbeddedGeo(c: nat, align: nat, q: nat, hdr: nat): Geo
    requires c > 0 && hdr <= q
  {
    Geo(c, align, q, 0, (q - hdr) % c, false)
  }

  function FirewallGeo(c: nat, align: nat, q: nat): Geo {
    FirewallAt(c, align, P2RoundUp(c, q))
  }

  function FirewallAt(c: nat, align: nat, s: nat): Geo { Geo(c, align, s, (s - c) % U64, (s - c) % U64, true) }

  function HashedGeo(c: nat, align: nat, s: nat): Geo
    requires c > 0
  {
    Geo(c, align, s, 0, s % c, true)
  }

  lemma ZeroMod(a: nat)
    requires a > 0
    ensures 0 % a == 0
  {
    DivUnique(0, a, 0, 0);
  }

  /** The header test refuses the chunks that leave it no room, unless its sum wraps. */
  lemma EmbeddedExact(c: nat, align: nat, q: nat, hdr: nat)
    requires 0 < c < U64 && 0 < align <= q && q % align == 0 && c % align == 0 && 0 < hdr < q < U64
    requires (c + hdr) % U64 <= q
    ensures GeoOk(Capped(EmbeddedGeo(c, align, q, hdr), q), q, hdr) <==> c + hdr < U64
  {
    ZeroMod(align);
    DivUnique(q, q, 1, 0);
  }

  lemma HashedOk(c: nat, align: nat, q: nat, s: nat, hdr: nat)
    requires 0 < c <= s && 0 < align <= q && q % align == 0 && c % align == 0 && s % q == 0
    ensures GeoOk(Capped(HashedGeo(c, align, s), q), q, hdr)
  {
    ZeroMod(align);
  }

  lemma FirewallExact(c: nat, align: nat, j: nat, hdr: nat)
    requires 0 < c < U64 && j <= 61 && 0 < align <= Pow2(j) && Pow2(j) % align == 0 && c % align == 0
    ensures GeoOk(Capped(FirewallGeo(c, align, Pow2(j)), Pow2(j)), Pow2(j), hdr) <==> Up(c, Pow2(j)) < U64
  {
    var q, up := Pow2(j), Up(c, Pow2(j));
    assert P2RoundUp(c, q) == if up == U64 then 0 else up by { RoundUpExact(c, j); }
    assert up <= U64 by { RoundUpExact(c, j); }
    if up < U64 {
      assert up % q == 0 && c <= up < c + q by { UpExact(c, q); }
      FirewallSound(c, align, q, up, hdr);
    }
  }

  lemma FirewallSound(c: nat, align: nat, q: nat, s: nat, hdr: nat)
    requires 0 < c <= s < c + q && s < U64 && 0 < align <= q && q % align == 0 && c % align == 0 && s % q == 0
    ensures GeoOk(Capped(FirewallAt(c, align, s), q), q, hdr)
  {
    assert (s - c) % align == 0 by { MultipleOf(s, q, align); DiffMultiple(s, c, align); }
    assert (s - (s - c)) % c == 0 by { DivUnique(c, c, 1, 0); }
    assert (s - c) % U64 == s - c;
  }

  lemma MultipleOf(s: nat, q: nat, a: nat)
    requires a > 0 && q > 0 && s % q == 0 && q % a == 0
    ensures s % a == 0
  {
    var m, n := s / q, q / a;
    assert s == m * q && q == n * a;
    assert m * (n * a) == (m * n) * a;
    DivUnique(s, a, m * n, 0);
  }

  lemma DiffMultiple(x: nat, y: nat, a: nat)
    requires a > 0 && y <= x && x % a == 0 && y % a == 0
    ensures (x - y) % a == 0
  {
    var m, n := x / a, y / a;
    assert x == m * a && y == n * a;
    assert (m - n) * a == m * a - n * a;
    DivUnique(x - y, a, m - n, 0);
  }

  lemma AlignDivides(i: nat, j: nat)
    requires i <= j
    ensures 0 < Pow2(i) <= Pow2(j) && Pow2(j) % Pow2(i) == 0
  {
    PowMonotone(i, j);
    PowAdd(j - i, i);
    DivUnique(Pow2(j), Pow2(i), Pow2(j - i), 0);
  }

  lemma ChunkAligned(bufsize: nat, i: nat, tag: nat)
    requires 0 < bufsize < U64 && i <= 62 && (tag == 0 || tag == BUFTAG) && ChunkSize(bufsize, i, tag).Some?
    ensures var c := ChunkSize(bufsize, i, tag).value;
            0 < c < U64 && c >= bufsize + tag && c % Pow2(i) == 0 && c == Rounded(bufsize, Pow2(i), tag)
  {
    ChunkSizeExact(bufsize, i, tag);
    UpExact(bufsize, ALIGN);
    UpExact((if Pow2(i) >= ALIGN then Up(bufsize, ALIGN) else bufsize) + tag, Pow2(i));
  }

  /** Arguments umem_cache_create turns down. */
  predicate BadArguments(r: Request, j: nat) {
    r.bufsize == 0 || (r.align.Some? && r.align.value > j) || (r.nohash && r.notouch)
  }

  /** The chunk size meant. */
  function ChunkOf(r: Request): nat { Rounded(r.bufsize, Pow2(Alignment(r)), r.tag) }

  /** Chunks of `c` bytes that are turned down: no room for the header, or slabs beyond 64 bits. */
  predicate NoLayout(r: Request, c: nat, q: nat, hdr: nat)
    requires q > 0
  {
    if r.firewall then false
    else if Embedded(r, c, q) then (c + hdr) % U64 > q
    else SlabFor(c, q, VOID_FRACTION) >= U64
  }

  /** Which layout a request for chunks of `c` bytes gets. */
  ghost predicate LaidOut(r: Request, c: nat, align: nat, q: nat, hdr: nat, g: Geo)
    requires c > 0 && 0 < hdr < q
  {
    if r.firewall then g == Capped(FirewallGeo(c, align, q), q)
    else if Embedded(r, c, q) then g == Capped(EmbeddedGeo(c, align, q, hdr), q)
    else g == Capped(HashedGeo(c, align, g.slabsize), q) && WellFilled(c, q, g.slabsize)
  }

  /**
   * umem_cache_create's layout for an arena of quantum 2^j and a slab header of `hdr` bytes:
   * exactly what is refused, what is chosen otherwise, and that the choice is sound exactly
   * when the sums the code does not test fit.
   */
  method Choose(r: Request, j: nat, hdr: nat) returns (g: Option<Geo>)
    requires r.bufsize < U64 && 4 <= j <= 61 && 0 < hdr < Pow2(j) && (r.tag == 0 || r.tag == BUFTAG)
    ensures g.None? <==> BadArguments(r, j) || ChunkOf(r) >= U64 || NoLayout(r, ChunkOf(r), Pow2(j), hdr)
    ensures g.Some? ==>
              && g.value.chunksize == ChunkOf(r) >= r.bufsize + r.tag
              && LaidOut(r, ChunkOf(r), Pow2(Alignment(r)), Pow2(j), hdr, g.value)
              && (GeoOk(g.value, Pow2(j), hdr) <==> SumsFit(r, ChunkOf(r), Pow2(j), hdr))
  {
    if r.bufsize == 0 || (r.align.Some? && r.align.value > j) || (r.nohash && r.notouch) { return None; }
    var i := Alignment(r);
    var chunk := ChunkSize(r.bufsize, i, r.tag);
    ChunkSizeExact(r.bufsize, i, r.tag);
    if chunk.None? { return None; }
    ChunkAligned(r.bufsize, i, r.tag);
    AlignDivides(i, j);
    g := Layout(r, chunk.value, i, j, hdr);
  }

  method Layout(r: Request, c: nat, i: nat, j: nat, hdr: nat) returns (g: Option<Geo>)
    requires 0 < c < U64 && j <= 61 && 0 < hdr < Pow2(j)
    requires Pow2(i) <= Pow2(j) && Pow2(j) % Pow2(i) == 0 && c % Pow2(i) == 0
    ensures g.None? <==> NoLayout(r, c, Pow2(j), hdr)
    ensures g.Some? ==> g.value.chunksize == c && LaidOut(r, c, Pow2(i), Pow2(j), hdr, g.value)
    ensures g.Some? ==> (GeoOk(g.value, Pow2(j), hdr) <==> SumsFit(r, c, Pow2(j), hdr))
  {
    var q, align := Pow2(j), Pow2(i);
    assert q < U64 by { PowBelow(j); }
    if r.firewall {
      FirewallExact(c, align, j, hdr);
      return Some(Capped(FirewallGeo(c, align, q), q));
    }
    if Embedded(r, c, q) {
      if (c + hdr) % U64 > q { return None; }
      EmbeddedExact(c, align, q, hdr);
      return Some(Capped(EmbeddedGeo(c, align, q, hdr), q));
    }
    var best := BestFit(c, j);
    if best.None? { return None; }
    var s := Denser(c, j, best.value);
    HashedOk(c, align, q, s, hdr);
    g := Some(Capped(HashedGeo(c, align, s), q));
  }

  lemma Page()
    ensures Pow2(12) == 4096 && Pow2(4) == 16 && Pow2(3) == 8
  {
  }

  /** Any layout of a request whose sums do not fit is unsound. */
  lemma Unsound(r: Request, j: nat, hdr: nat, g: Geo)
    requires 0 < r.bufsize < U64 && 4 <= j <= 61 && 0 < hdr < Pow2(j) && r.tag == 0
    requires !BadArguments(r, j) && ChunkOf(r) < U64 && !NoLayout(r, ChunkOf(r), Pow2(j), hdr)
    requires ChunkOf(r) > 0 && LaidOut(r, ChunkOf(r), Pow2(Alignment(r)), Pow2(j), hdr, g)
    requires !SumsFit(r, ChunkOf(r), Pow2(j), hdr)
    ensures !GeoOk(g, Pow2(j), hdr)
  {
    var i, c := Alignment(r), ChunkOf(r);
    assert 0 < c < U64 && c % Pow2(i) == 0 by {
      ChunkSizeExact(r.bufsize, i, r.tag);
      ChunkAligned(r.bufsize, i, r.tag);
    }
    AlignDivides(i, j);
    assert Pow2(j) < U64 by { PowBelow(j); }
    if r.firewall {
      FirewallExact(c, Pow2(i), j, hdr);
    } else {
      EmbeddedExact(c, Pow2(i), Pow2(j), hdr);
    }
  }

  /** 2^64 - 64 bytes with the header kept in the slab: accepted in a 4 KiB arena, and nothing fits. */
  lemma EmbeddedWraps(g: Geo)
    ensures var r := Request(U64 - 64, None, true, false, false, false, 0);
            && !BadArguments(r, 12) && ChunkOf(r) == U64 - 64 && !NoLayout(r, ChunkOf(r), 4096, HEADER)
            && (LaidOut(r, ChunkOf(r), 16, 4096, HEADER, g) ==> !GeoOk(g, 4096, HEADER))
  {
    var r := Request(U64 - 64, None, true, false, false, false, 0);
    Page();
    assert Up(U64 - 64, 8) == U64 - 64 && Up(U64 - 64, 16) == U64 - 64;
    assert Alignment(r) == 4 && ChunkOf(r) == U64 - 64;
    assert (ChunkOf(r) + HEADER) % U64 == 8;
    if LaidOut(r, ChunkOf(r), 16, 4096, HEADER, g) { Unsound(r, 12, HEADER, g); }
  }

  /** 2^64 - 8 bytes, 8-aligned, from the firewall arena: accepted, with slabs of no bytes. */
  lemma FirewallWraps(g: Geo)
    ensures var r := Request(U64 - 8, Some(3), false, false, false, true, 0);
            && !BadArguments(r, 12) && ChunkOf(r) == U64 - 8 && !NoLayout(r, ChunkOf(r), 4096, HEADER)
            && (LaidOut(r, ChunkOf(r), 8, 4096, HEADER, g) ==> g.slabsize == 0 && !GeoOk(g, 4096, HEADER))
  {
    var r := Request(U64 - 8, Some(3), false, false, false, true, 0);
    Page();
    assert Up(U64 - 8, 8) == U64 - 8;
    assert Alignment(r) == 3 && ChunkOf(r) == U64 - 8;
    assert Up(U64 - 8, 4096) == U64;
    RoundUpExact(U64 - 8, 12);
    if LaidOut(r, ChunkOf(r), 8, 4096, HEADER, g) { Unsound(r, 12, HEADER, g); }
  }

  // ---- one slab ----

  /** The colours umem_slab_create goes through. */
  predicate ColorOk(g: Geo, color: nat)
    requires g.align > 0
  {
    g.mincolor <= color <= g.maxcolor && color % g.align == 0
  }

  function NextColor(g: Geo, color: nat): nat {
    if color + g.align > g.maxcolor then g.mincolor else color + g.align
  }

  lemma NextColorOk(g: Geo, q: nat, hdr: nat, color: nat)
    requires GeoOk(g, q, hdr) && ColorOk(g, color)
    ensures ColorOk(g, g.mincolor) && ColorOk(g, NextColor(g, color))
  {
    DivUnique(g.align, g.align, 1, 0);
    SumMultiple(color, g.align, g.align);
  }

  function Chunks(g: Geo, hdr: nat, color: nat): int
    requires g.chunksize > 0
  {
    (Room(g, hdr) - color) / g.chunksize
  }

  /** The number of chunks is positive and the same for every colour. */
  lemma SameChunks(g: Geo, q: nat, hdr: nat, color: nat)
    requires GeoOk(g, q, hdr) && ColorOk(g, color)
    ensures Chunks(g, hdr, color) == Chunks(g, hdr, g.mincolor) >= 1
  {
    var c, r := g.chunksize, Room(g, hdr) - g.mincolor;
    assert r == r / c * c + r % c;
    DivUnique(Room(g, hdr) - color, c, r / c, r % c - (color - g.mincolor));
    DivAtLeast(r, c, 1);
  }

  function Buffer(g: Geo, slab: nat, color: nat, n: nat): nat { slab + color + n * g.chunksize }

  /** Every buffer is aligned and lies between the colour and the header. */
  lemma BufferInside(g: Geo, q: nat, hdr: nat, slab: nat, color: nat, n: nat)
    requires GeoOk(g, q, hdr) && ColorOk(g, color) && slab % q == 0 && n < Chunks(g, hdr, color)
    ensures Buffer(g, slab, color, n) % g.align == 0
    ensures slab + color <= Buffer(g, slab, color, n)
    ensures Buffer(g, slab, color, n) + g.chunksize <= slab + Room(g, hdr)
  {
    var c, r := g.chunksize, Room(g, hdr) - color;
    assert r == r / c * c + r % c;
    MulGap(n, r / c, c) by { SameChunks(g, q, hdr, color); }
    MulMonotone(0, n, c);
    MultipleOf(slab, q, g.align);
    TimesMultiple(n, c, g.align);
    SumMultiple(slab, color, g.align);
    SumMultiple(slab + color, n * c, g.align);
  }

  lemma TimesMultiple(n: nat, c: nat, a: nat)
    requires a > 0 && c % a == 0
    ensures n * c % a == 0
  {
    var m := c / a;
    assert c == m * a;
    assert n * (m * a) == (n * m) * a;
    DivUnique(n * c, a, n * m, 0);
  }

  /** No two buffers of a slab overlap. */
  lemma BuffersApart(g: Geo, slab: nat, color: nat, n: nat, m: nat)
    requires n < m && g.chunksize > 0
    ensures Buffer(g, slab, color, n) + g.chunksize <= Buffer(g, slab, color, m)
  {
    MulGap(n, m, g.chunksize);
  }

  /** UMEM_SLAB: from any byte of a buffer the embedded header is found, just below the end of the slab. */
  lemma HeaderFound(g: Geo, j: nat, hdr: nat, slab: nat, a: nat)
    requires j < 64 && GeoOk(g, Pow2(j), hdr) && !g.hashed && slab % Pow2(j) == 0
    requires slab <= a < slab + Pow2(j) && slab + Pow2(j) < U64
    ensures P2End(a, g.slabsize) - hdr == slab + Room(g, hdr)
  {
    EndInBlock(a, slab, j);
  }

  /** umem_slab_destroy: the address given back to the arena is the one it gave. */
  lemma AddressRecovered(g: Geo, j: nat, hdr: nat, slab: nat, color: nat)
    requires j < 64 && GeoOk(g, Pow2(j), hdr) && ColorOk(g, color) && slab % Pow2(j) == 0 && slab + Pow2(j) < U64
    ensures P2Align(slab + color, Pow2(j)) == slab
  {
    AlignInBlock(slab + color, slab, j);
  }

  /** umem_slab_reclaim's range; None when there is no whole page. */
  function Reclaimed(g: Geo, page: nat, base: nat): Option<(nat, nat)>
    requires base < U64
  {
    var start := P2RoundUp(base, page);
    var end := P2Align(P2End(base, g.slabsize), page);
    if end <= start then None else Some((start, end))
  }

  /** The pages decommitted lie inside the slab, whatever multiple of the quantum its size is. */
  lemma ReclaimInside(g: Geo, j: nat, p: nat, hdr: nat, slab: nat, color: nat)
    requires j < 64 && p < 64 && GeoOk(g, Pow2(j), hdr) && ColorOk(g, color) && slab % Pow2(j) == 0
    requires slab + g.slabsize + Pow2(j) <= U64 && slab + g.slabsize + Pow2(p) <= U64
    ensures var r := Reclaimed(g, Pow2(p), slab + color);
            r.Some? ==> slab <= r.value.0 < r.value.1 <= slab + g.slabsize
  {
    var base := slab + color;
    var e := P2End(base, g.slabsize);
    assert slab < e <= slab + g.slabsize by { EndInside(slab, color, g.slabsize, j); }
    assert base < slab + g.slabsize by { SizeAtLeast(g.slabsize, Pow2(j)); }
    assert P2RoundUp(base, Pow2(p)) >= base by { RoundUpExact(base, p); UpExact(base, Pow2(p)); }
    assert P2Align(e, Pow2(p)) <= e by { AlignExact(e, p); }
  }

  lemma SizeAtLeast(s: nat, q: nat)
    requires s > 0 && q > 0 && s % q == 0
    ensures s >= q
  {
    assert s == s / q * q;
    if s / q >= 1 { MulMonotone(1, s / q, q); }
  }
}
