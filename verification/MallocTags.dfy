/**
 * malloc's headers: the tags umem_malloc and umem_memalign write in front of a buffer, the
 * decoder that must recover base and sizes from them, and the fast free that must decide
 * exactly as the slow one.
 */
module MallocTags {
  import opened Collections
  import opened Arithmetic

  const U32: nat := 0x1_0000_0000
  const U64: nat := 0x1_0000_0000_0000_0000
  const TAG: nat := 8                      // sizeof (malloc_data_t)
  const ALIGN: nat := 8                    // UMEM_ALIGN
  const SECOND_ALIGN: nat := 16            // UMEM_SECOND_ALIGN
  const MAXBUF: nat := 131072              // UMEM_MAXBUF
  const MALLOC_MAGIC: nat := 0x3a10c000
  const MEMALIGN_MAGIC: nat := 0x3e3a1000
  const SECOND_MAGIC: nat := 0x16ba7000
  const OVERSIZE_MAGIC: nat := 0x06e47000
  const FREE_PATTERN: nat := 0xdeadbeef

  /** Memory in 32-bit words, by the word's address. */
  type Memory = map<nat, nat>

  function Word(mem: Memory, a: nat): nat { if a in mem then mem[a] % U32 else 0 }

  // ---- tags ----

  function Encode(magic: nat, size: nat): nat { (magic - size) % U32 }

  function Decode(stat: nat, size: nat): nat { (stat + size) % U32 }

  lemma DecodeEncode(magic: nat, size: nat)
    requires magic < U32 && size < U32
    ensures Encode(magic, size) < U32 && Decode(Encode(magic, size), size) == magic
  {
  }

  /** A tag at `a`: malloc_size, then malloc_stat. */
  function PutTag(mem: Memory, a: nat, magic: nat, size: nat): Memory {
    mem[a := size][a + 4 := Encode(magic, size)]
  }

  function MagicAt(mem: Memory, a: nat): nat { Decode(Word(mem, a + 4), Word(mem, a)) }

  ghost predicate Tagged(mem: Memory, a: nat, magic: nat, size: nat) {
    MagicAt(mem, a) == magic && Word(mem, a) == size
  }

  lemma PutTagged(mem: Memory, a: nat, magic: nat, size: nat)
    requires magic < U32 && size < U32
    ensures Tagged(PutTag(mem, a, magic, size), a, magic, size)
    ensures forall b: nat, g: nat, n: nat :: (b + 8 <= a || a + 8 <= b) && Tagged(mem, b, g, n)
              ==> Tagged(PutTag(mem, a, magic, size), b, g, n)
  {
    DecodeEncode(magic, size);
  }

  // ---- umem_malloc ----

  datatype Allocation = Allocated(p: nat, mem: Memory) | NoMemory | Again | Invalid

  /** Total size asked of _umem_alloc, in 64-bit arithmetic; None when the code refuses. */
  function TotalSize(arg: nat): Option<nat> {
    var s1 := (arg + TAG) % U64;
    var s2 := if s1 > SECOND_ALIGN then (s1 + TAG) % U64 else s1;
    if s2 < arg then None else Some(s2)
  }

  /** Bytes of tag in front of the data. */
  function Overhead(arg: nat): nat { if arg + TAG > SECOND_ALIGN then 2 * TAG else TAG }

  /** The overflow test refuses exactly the sizes whose total does not fit in 64 bits. */
  lemma TotalSizeExact(arg: nat)
    requires arg < U64
    ensures TotalSize(arg) == if arg + Overhead(arg) < U64 then Some(arg + Overhead(arg)) else None
  {
  }

  /** The tags umem_malloc writes for a total of `size` bytes at `base`. */
  function PutMallocTags(mem: Memory, base: nat, size: nat): Memory {
    if size >= U32 then
      PutTag(PutTag(mem, base, MALLOC_MAGIC, size / U32), base + TAG, OVERSIZE_MAGIC, size % U32)
    else if size > SECOND_ALIGN then PutTag(mem, base + TAG, SECOND_MAGIC, size)
    else PutTag(mem, base, MALLOC_MAGIC, size)
  }

  /** `got` is what _umem_alloc returns, 0 for NULL. */
  function Malloc(mem: Memory, arg: nat, got: nat): Allocation {
    match TotalSize(arg)
    case None => NoMemory
    case Some(size) =>
      if got == 0 then (if size <= MAXBUF then Again else NoMemory)
      else Allocated(got + (if size > SECOND_ALIGN then 2 * TAG else TAG), PutMallocTags(mem, got, size))
  }

  // ---- umem_memalign ----

  predicate PowerOfTwo(n: nat) { n == 1 || (n > 1 && n % 2 == 0 && PowerOfTwo(n / 2)) }

  /** memalign hands these requests to umem_malloc. */
  predicate PlainEnough(align: nat, arg: nat) {
    align <= ALIGN || (align <= SECOND_ALIGN && arg >= SECOND_ALIGN)
  }

  /** `got` is what the allocator underneath returns, 0 for NULL. */
  function Memalign(mem: Memory, align: nat, arg: nat, got: nat): Allocation {
    if arg == 0 || !PowerOfTwo(align) then Invalid
    else if PlainEnough(align, arg) then Malloc(mem, arg, got)
    else
      var size := (arg + 2 * TAG) % U64;
      if size < arg then NoMemory
      else if got == 0 then (if (arg + align) % U64 <= MAXBUF then Again else NoMemory)
      else
        Allocated(got + 2 * TAG,
                  PutTag(PutTag(mem, got, MEMALIGN_MAGIC, size / U32), got + TAG, MEMALIGN_MAGIC, size % U32))
  }

  lemma AlignIsEven(align: nat)
    requires PowerOfTwo(align) && align > ALIGN
    ensures align >= 2 * TAG && align % (2 * TAG) == 0
  {
    assert PowerOfTwo(align / 2) && PowerOfTwo(align / 4);
    assert PowerOfTwo(align / 8);
  }

  /** With the phase asked of vmem_xalloc the tags fit in front and the data is aligned. */
  lemma MemalignAligned(mem: Memory, align: nat, arg: nat, got: nat)
    requires Memalign(mem, align, arg, got).Allocated? && !PlainEnough(align, arg)
    requires got % align == align - 2 * TAG
    ensures 2 * TAG <= align && Memalign(mem, align, arg, got).p % align == 0
  {
    AlignIsEven(align);
    var q := got / align;
    assert got + 2 * TAG == (q + 1) * align + 0;
    DivUnique(got + 2 * TAG, align, q + 1, 0);
  }

  // ---- ownership tests ----

  datatype Hull = Hull(lo: nat, hi: nat)

  /** The bounds only widen. */
  predicate Widens(a: Hull, b: Hull) { b.lo <= a.lo && a.hi <= b.hi }

  /** hull_contains, with its 64-bit sum. */
  predicate HullContains(h: Hull, a: nat, len: nat) {
    var end := (a + len) % U64;
    !(a == 0 || len == 0 || end < a) && a >= h.lo && end <= h.hi
  }

  lemma HullExact(h: Hull, a: nat, len: nat)
    requires a < U64 && len < U64
    ensures HullContains(h, a, len) <==> 0 < a && 0 < len && a + len < U64 && h.lo <= a && a + len <= h.hi
  {
  }

  lemma HullWidens(h: Hull, h': Hull, a: nat, len: nat)
    requires Widens(h, h') && HullContains(h, a, len)
    ensures HullContains(h', a, len)
  {
  }

  /** vmem's table of heap spans: its generation is odd while it changes, and every change moves it on. */
  datatype Table = Table(gen: nat, spans: set<(nat, nat)>, saturated: bool, hull: Hull)

  /** Does the table own [a, a+len)?  A table that has overflowed answers by the hull. */
  predicate Owns(t: Table, a: nat, len: nat) {
    if t.saturated then t.hull.lo <= a && a + len <= t.hull.hi
    else exists s :: s in t.spans && s.0 <= a && a + len <= s.1
  }

  ghost predicate TableOk(t: Table) {
    forall s :: s in t.spans ==> 0 < s.0 < s.1 && t.hull.lo <= s.0 && s.1 <= t.hull.hi
  }

  /** vmem_span_find: a span that owns the range, with base 0 for the overflowed table's answer. */
  ghost predicate Finds(t: Table, a: nat, len: nat, found: Option<(nat, nat)>) {
    match found
    case None => !Owns(t, a, len)
    case Some(s) =>
      Owns(t, a, len) && (s.0 == 0 || (s in t.spans && s.0 <= a && a + len <= s.1))
  }

  /** The thread's last span. */
  datatype Cache = Cache(lo: nat, hi: nat, gen: nat)

  ghost predicate CacheOk(c: Cache, t: Table) {
    c.gen <= t.gen && (c.gen == t.gen ==> (c.lo, c.hi) in t.spans || (c.lo == 0 && c.hi == 0))
  }

  /** The table as read at one moment and at a later one. */
  ghost predicate Later(t: Table, t': Table) { t.gen <= t'.gen && (t.gen == t'.gen ==> t == t') }

  /** span_owns_cached: the generation is read first, the table searched later. */
  function SpanOwnsCached(c: Cache, gen: nat, found: Option<(nat, nat)>, a: nat, len: nat): (bool, Cache) {
    var end := (a + len) % U64;
    if gen == c.gen && a >= c.lo && end <= c.hi then (true, c)
    else
      match found
      case None => (false, c)
      case Some(s) => (true, if s.0 != 0 && gen % 2 == 0 then Cache(s.0, s.1, gen) else c)
  }

  /**
   * For a range that does not wrap, the cached test answers as the table does, at the moment
   * the generation was read or the moment it was searched, and the cache stays good.
   */
  lemma CachedExact(c: Cache, t: Table, t': Table, found: Option<(nat, nat)>, a: nat, len: nat)
    requires CacheOk(c, t) && TableOk(t) && TableOk(t') && Later(t, t')
    requires 0 < a && a + len < U64 && Finds(t', a, len, found)
    ensures var (yes, c') := SpanOwnsCached(c, t.gen, found, a, len);
            && CacheOk(c', t')
            && (yes ==> Owns(t, a, len) || Owns(t', a, len))
            && (!yes ==> !Owns(t', a, len))
  {
    if t.gen == c.gen && a >= c.lo && a + len <= c.hi {
      assert (c.lo, c.hi) in t.spans;
      assert t.hull.lo <= (c.lo, c.hi).0 && (c.lo, c.hi).1 <= t.hull.hi;
    }
  }

  /** Without the hull test in front, a wrapped range hits the cache though nothing owns it. */
  lemma CachedNeedsHull()
    ensures exists c, t, a, len ::
              && CacheOk(c, t) && TableOk(t) && !Owns(t, a, len) && len > 0
              && SpanOwnsCached(c, t.gen, None, a, len).0
              && forall h :: !HullContains(h, a, len)
  {
    var s: (nat, nat) := (16, 32);
    var c, t := Cache(16, 32, 2), Table(2, {s}, false, Hull(16, 32));
    var a, len: nat := 20, U64 - 10;
    assert (a + len) % U64 == 10;
    assert forall x :: x in t.spans ==> x == s;
    assert CacheOk(c, t) && TableOk(t) && !Owns(t, a, len) && SpanOwnsCached(c, t.gen, None, a, len).0;
    assert forall h :: !HullContains(h, a, len);
  }

  // ---- free ----

  /** What a free does: nothing, or poison `npoison` stat words from `poison` on and release the object. */
  datatype Verdict =
    | Refused
    | Freed(memalign: bool, base: nat, size: nat, poison: nat, npoison: nat, data: nat)

  function Back(p: nat, n: nat): nat { (p - n) % U64 }

  /** The hull as process_free_umem reads it: once at the start, and again on each miss. */
  datatype Reads = Reads(first: Hull, head: Hull, second: Hull, own: Hull)

  predicate ReadsWiden(h: Reads) {
    Widens(h.first, h.head) && Widens(h.head, h.second) && Widens(h.second, h.own)
  }

  predicate MayRead(first: Hull, again: Hull, a: nat, len: nat) {
    HullContains(first, a, len) || HullContains(again, a, len)
  }

  predicate MayOwn(first: Hull, again: Hull, t: Table, a: nat, len: nat) {
    (HullContains(first, a, len) && Owns(t, a, len)) || (HullContains(again, a, len) && Owns(t, a, len))
  }

  /** Step 3: the layout the tags name, before any size or ownership test. */
  function Layout(mem: Memory, h: Reads, p: nat): Verdict {
    var b := Back(p, TAG);
    if !MayRead(h.first, h.head, b, TAG) then Refused
    else
      var size, magic := Word(mem, b), MagicAt(mem, b);
      if magic == MALLOC_MAGIC then Freed(false, b, size, b, 1, (size - TAG) % U64)
      else if magic == SECOND_MAGIC then Freed(false, Back(b, TAG), size, b, 1, (size - 2 * TAG) % U64)
      else if magic == OVERSIZE_MAGIC || magic == MEMALIGN_MAGIC then
        var b2 := Back(b, TAG);
        var want := if magic == OVERSIZE_MAGIC then MALLOC_MAGIC else MEMALIGN_MAGIC;
        if !MayRead(h.first, h.second, b2, TAG) || MagicAt(mem, b2) != want then Refused
        else
          var total := size + Word(mem, b2) * U32;
          Freed(magic == MEMALIGN_MAGIC, b2, total, b2, 2, (total - 2 * TAG) % U64)
      else Refused
  }

  /** The smallest size each layout allows. */
  function LeastSize(v: Verdict): nat
    requires v.Freed?
  {
    if v.npoison == 1 && v.poison == v.base then TAG else 2 * TAG
  }

  /** process_free_umem's decision. */
  function Slow(mem: Memory, h: Reads, t: Table, p: nat): Verdict {
    var v := Layout(mem, h, p);
    if v.Refused? || v.size < LeastSize(v) || !MayOwn(h.first, h.own, t, v.base, v.size) then Refused else v
  }

  /** One call of span_owns_cached: the generation it reads, and the answers of the search after it. */
  datatype Look = Look(gen: nat, find: (nat, nat) -> Option<(nat, nat)>)

  function Ask(c: Cache, k: Look, h: Hull, a: nat, len: nat): (bool, Cache) {
    if HullContains(h, a, len) then SpanOwnsCached(c, k.gen, k.find(a, len), a, len) else (false, c)
  }

  /** process_free_umem with the thread's cached span: MAY_OWN may look twice. */
  function CachedSlow(mem: Memory, h: Reads, k1: Look, k2: Look, c: Cache, p: nat): (Verdict, Cache) {
    var v := Layout(mem, h, p);
    if v.Refused? || v.size < LeastSize(v) then (Refused, c)
    else
      var (yes, c1) := Ask(c, k1, h.first, v.base, v.size);
      if yes then (v, c1)
      else
        var (yes2, c2) := Ask(c1, k2, h.own, v.base, v.size);
        (if yes2 then v else Refused, c2)
  }

  /** umem_malloc_free's own part: the two one-word layouts, against one reading of the hull. */
  function CachedFast(mem: Memory, h: Hull, k: Look, c: Cache, p: nat): (Option<Verdict>, Cache) {
    var b := Back(p, TAG);
    if !HullContains(h, b, TAG) then (None, c)
    else
      var size, magic := Word(mem, b), MagicAt(mem, b);
      if magic != MALLOC_MAGIC && magic != SECOND_MAGIC then (None, c)
      else
        var base := if magic == MALLOC_MAGIC then b else Back(b, TAG);
        var least := if magic == MALLOC_MAGIC then TAG else 2 * TAG;
        if size < least then (None, c)
        else
          var (yes, c') := Ask(c, k, h, base, size);
          (if yes then Some(Freed(false, base, size, b, 1, (size - least) % U64)) else None, c')
  }

  /** umem_malloc_free for a pointer that is not the bootstrap allocator's. */
  function MallocFree(mem: Memory, fast: Hull, h: Reads, k0: Look, k1: Look, k2: Look, c: Cache, p: nat)
    : (Verdict, Cache)
  {
    match CachedFast(mem, fast, k0, c, p)
    case (Some(v), c') => (v, c')
    case (None, c') => CachedSlow(mem, h, k1, k2, c', p)
  }

  /**
   * The fast free decides, and leaves the cached span, exactly as process_free_umem would have
   * done looking at the same moment, however the hull widens and the table changes in between.
   */
  lemma FastIsSlow(mem: Memory, fast: Hull, h: Reads, k0: Look, k1: Look, k2: Look, c: Cache, p: nat)
    requires Widens(fast, h.first) && p < U64
    ensures
      var (tried, c0) := CachedFast(mem, fast, k0, c, p);
      MallocFree(mem, fast, h, k0, k1, k2, c, p) ==
      if tried.Some? then CachedSlow(mem, h, k0, k2, c, p) else CachedSlow(mem, h, k1, k2, c0, p)
  {
    var b := Back(p, TAG);
    var (tried, c0) := CachedFast(mem, fast, k0, c, p);
    if tried.Some? {
      var v := tried.value;
      assert HullContains(h.first, b, TAG) by { HullWidens(fast, h.first, b, TAG); }
      assert HullContains(h.first, v.base, v.size) by { HullWidens(fast, h.first, v.base, v.size); }
      if MagicAt(mem, b) == SECOND_MAGIC {
        assert HullContains(fast, v.base, v.size);
        assert v.base != b;
      }
      assert Layout(mem, h, p) == v;
    }
  }

  // ---- the decision and the span table ----

  /** The generation is read from `t`, the search answers by `t'`. */
  ghost predicate Sees(k: Look, t: Table, t': Table) {
    k.gen == t.gen && forall a: nat, len: nat :: a + len < U64 ==> Finds(t', a, len, k.find(a, len))
  }

  lemma AskExact(c: Cache, k: Look, t: Table, t': Table, h: Hull, a: nat, len: nat)
    requires CacheOk(c, t) && TableOk(t) && TableOk(t') && Later(t, t') && Sees(k, t, t')
    requires a < U64 && len < U64
    ensures var (yes, c') := Ask(c, k, h, a, len);
            && CacheOk(c', t')
            && (yes ==> HullContains(h, a, len) && (Owns(t, a, len) || Owns(t', a, len)))
            && (!yes ==> !HullContains(h, a, len) || !Owns(t', a, len))
  {
    if HullContains(h, a, len) {
      HullExact(h, a, len);
      CachedExact(c, t, t', k.find(a, len), a, len);
    }
  }

  /** Successive tables: each generation is one table, and they only go up. */
  ghost predicate History(ts: seq<Table>) {
    && (forall i :: 0 <= i < |ts| ==> TableOk(ts[i]))
    && (forall i, j :: 0 <= i <= j < |ts| ==> Later(ts[i], ts[j]))
  }

  lemma CacheLater(c: Cache, t: Table, t': Table)
    requires CacheOk(c, t) && Later(t, t')
    ensures CacheOk(c, t')
  {
  }

  lemma SlowExact(mem: Memory, h: Reads, k1: Look, k2: Look, c: Cache, p: nat, ts: seq<Table>)
    requires p < U64 && |ts| == 4 && History(ts) && CacheOk(c, ts[0])
    requires Sees(k1, ts[0], ts[1]) && Sees(k2, ts[2], ts[3])
    ensures
      var (v, c') := CachedSlow(mem, h, k1, k2, c, p);
      var l := Layout(mem, h, p);
      && CacheOk(c', ts[3])
      && (v.Freed? ==> v == l && v.size >= LeastSize(v) && exists i :: 0 <= i < 4 && Owns(ts[i], v.base, v.size))
      && (v.Refused? ==> || l.Refused? || l.size < LeastSize(l)
                         || !HullContains(h.own, l.base, l.size) || !Owns(ts[3], l.base, l.size))
  {
    var l := Layout(mem, h, p);
    if l.Refused? || l.size < LeastSize(l) {
      CacheLater(c, ts[0], ts[3]);
    } else {
      LayoutShape(mem, h, p);
      LayoutFits(mem, h, p);
      AskExact(c, k1, ts[0], ts[1], h.first, l.base, l.size);
      var (yes, c1) := Ask(c, k1, h.first, l.base, l.size);
      if yes {
        CacheLater(c1, ts[1], ts[3]);
        assert Owns(ts[0], l.base, l.size) || Owns(ts[1], l.base, l.size);
      } else {
        CacheLater(c1, ts[1], ts[2]);
        AskExact(c1, k2, ts[2], ts[3], h.own, l.base, l.size);
      }
    }
  }

  lemma LayoutFits(mem: Memory, h: Reads, p: nat)
    requires Layout(mem, h, p).Freed?
    ensures Layout(mem, h, p).size < U64
  {
  }

  /**
   * An accepted free is of an object the table owned at a moment it was looked at; a refused
   * one had a bad tag, or was outside the hull or not owned at the last moment.
   */
  lemma FreeExact(mem: Memory, fast: Hull, h: Reads, k0: Look, k1: Look, k2: Look, c: Cache, p: nat, ts: seq<Table>)
    requires p < U64 && Widens(fast, h.first) && |ts| == 6 && History(ts) && CacheOk(c, ts[0])
    requires Sees(k0, ts[0], ts[1]) && Sees(k1, ts[2], ts[3]) && Sees(k2, ts[4], ts[5])
    ensures
      var (v, c') := MallocFree(mem, fast, h, k0, k1, k2, c, p);
      var l := Layout(mem, h, p);
      && CacheOk(c', ts[5])
      && (v.Freed? ==> v == l && v.size >= LeastSize(v) && exists i :: 0 <= i < 6 && Owns(ts[i], v.base, v.size))
      && (v.Refused? ==> || l.Refused? || l.size < LeastSize(l)
                         || !HullContains(h.own, l.base, l.size) || !Owns(ts[5], l.base, l.size))
  {
    FastIsSlow(mem, fast, h, k0, k1, k2, c, p);
    var (tried, c0) := CachedFast(mem, fast, k0, c, p);
    if tried.Some? {
      SlowExact(mem, h, k0, k2, c, p, [ts[0], ts[1], ts[4], ts[5]]);
    } else {
      TriedKeeps(mem, fast, k0, c, p, ts[0], ts[1]);
      CacheLater(c0, ts[1], ts[2]);
      SlowExact(mem, h, k1, k2, c0, p, ts[2..]);
    }
  }

  lemma TriedKeeps(mem: Memory, fast: Hull, k: Look, c: Cache, p: nat, t: Table, t': Table)
    requires p < U64 && TableOk(t) && TableOk(t') && Later(t, t') && CacheOk(c, t) && Sees(k, t, t')
    ensures CacheOk(CachedFast(mem, fast, k, c, p).1, t')
  {
    var b := Back(p, TAG);
    CacheLater(c, t, t');
    AskExact(c, k, t, t', fast, b, Word(mem, b));
    AskExact(c, k, t, t', fast, Back(b, TAG), Word(mem, b));
  }

  /** While the table stays as it is, the free decides by the table alone. */
  lemma FreeByTable(mem: Memory, fast: Hull, h: Reads, k0: Look, k1: Look, k2: Look, c: Cache, p: nat, t: Table)
    requires p < U64 && Widens(fast, h.first) && ReadsWiden(h) && TableOk(t) && CacheOk(c, t)
    requires Sees(k0, t, t) && Sees(k1, t, t) && Sees(k2, t, t)
    ensures var (v, c') := MallocFree(mem, fast, h, k0, k1, k2, c, p);
            v == Slow(mem, h, t, p) && CacheOk(c', t)
  {
    FastIsSlow(mem, fast, h, k0, k1, k2, c, p);
    TriedKeeps(mem, fast, k0, c, p, t, t);
    var (tried, c0) := CachedFast(mem, fast, k0, c, p);
    if tried.Some? { SlowByTable(mem, h, k0, k2, c, p, t); } else { SlowByTable(mem, h, k1, k2, c0, p, t); }
  }

  lemma SlowByTable(mem: Memory, h: Reads, k1: Look, k2: Look, c: Cache, p: nat, t: Table)
    requires p < U64 && TableOk(t) && CacheOk(c, t) && Sees(k1, t, t) && Sees(k2, t, t)
    ensures var (v, c') := CachedSlow(mem, h, k1, k2, c, p);
            v == Slow(mem, h, t, p) && CacheOk(c', t)
  {
    var l := Layout(mem, h, p);
    if l.Freed? && l.size >= LeastSize(l) {
      LayoutShape(mem, h, p);
      LayoutFits(mem, h, p);
      AskExact(c, k1, t, t, h.first, l.base, l.size);
      var (yes, c1) := Ask(c, k1, h.first, l.base, l.size);
      if !yes { AskExact(c1, k2, t, t, h.own, l.base, l.size); }
    }
  }

  /** The verdict reads no memory outside the hull. */
  lemma ReadsOnlyHull(mem: Memory, mem': Memory, h: Reads, t: Table, p: nat)
    requires ReadsWiden(h) && p < U64
    requires forall a :: h.own.lo <= a && a + 4 <= h.own.hi ==> Word(mem, a) == Word(mem', a)
    ensures Slow(mem, h, t, p) == Slow(mem', h, t, p)
  {
    var b := Back(p, TAG);
    var b2 := Back(b, TAG);
    if MayRead(h.first, h.head, b, TAG) {
      HullExact(h.first, b, TAG);
      HullExact(h.head, b, TAG);
      assert Word(mem, b) == Word(mem', b) && Word(mem, b + 4) == Word(mem', b + 4);
    }
    if MayRead(h.first, h.second, b2, TAG) {
      HullExact(h.first, b2, TAG);
      HullExact(h.second, b2, TAG);
      assert Word(mem, b2) == Word(mem', b2) && Word(mem, b2 + 4) == Word(mem', b2 + 4);
    }
  }

  /** The three shapes a layout can have. */
  lemma LayoutShape(mem: Memory, h: Reads, p: nat)
    requires Layout(mem, h, p).Freed?
    ensures
      var v := Layout(mem, h, p);
      && v.base < U64 && v.poison < U64
      && (|| (v.npoison == 1 && v.poison == v.base)
          || (v.npoison == 1 && v.poison != v.base && v.base == Back(v.poison, TAG))
          || (v.npoison == 2 && v.poison == v.base))
      && v.data == (v.size - LeastSize(v)) % U64
  {
  }

  /** An accepted object is owned, and every word the free poisons lies inside it. */
  lemma PoisonsOnlyTheObject(mem: Memory, h: Reads, t: Table, p: nat, i: nat)
    requires p < U64 && Slow(mem, h, t, p).Freed? && i < Slow(mem, h, t, p).npoison
    ensures var v := Slow(mem, h, t, p);
            && Owns(t, v.base, v.size)
            && v.base <= v.poison + i * TAG + 4 && v.poison + i * TAG + 8 <= v.base + v.size
            && v.data == v.size - LeastSize(v)
  {
    var v := Slow(mem, h, t, p);
    LayoutShape(mem, h, p);
    assert v.size < U64 + U64;
    WithinHull(h.first, v.base, v.size);
    WithinHull(h.own, v.base, v.size);
  }

  lemma WithinHull(h: Hull, a: nat, len: nat)
    requires a < U64
    ensures HullContains(h, a, len) && len < U64 ==> a + len < U64
  {
  }

  // ---- round trips ----

  /** The object is the heap's: inside every reading of the hull and owned by the table. */
  predicate Ours(h: Reads, t: Table, base: nat, size: nat) {
    HullContains(h.first, base, size) && Owns(t, base, size) && base + size < U64
  }

  lemma TagsInside(h: Reads, base: nat, size: nat)
    requires HullContains(h.first, base, size) && base + size < U64 && size >= TAG
    ensures HullContains(h.first, base, TAG)
    ensures size >= 2 * TAG ==> HullContains(h.first, base + TAG, TAG)
  {
  }

  lemma DecodeOne(mem: Memory, h: Reads, t: Table, b: nat, base: nat, magic: nat, size: nat)
    requires magic == MALLOC_MAGIC || magic == SECOND_MAGIC
    requires b == (if magic == MALLOC_MAGIC then base else base + TAG)
    requires Tagged(mem, b, magic, size) && size >= (if magic == MALLOC_MAGIC then TAG else 2 * TAG)
    requires HullContains(h.first, b, TAG) && Ours(h, t, base, size)
    ensures Slow(mem, h, t, b + TAG) ==
            Freed(false, base, size, b, 1, size - (if magic == MALLOC_MAGIC then TAG else 2 * TAG))
  {
    assert Back(b + TAG, TAG) == b;
    if magic == SECOND_MAGIC { assert Back(b, TAG) == base; }
  }

  lemma DecodeTwo(mem: Memory, h: Reads, t: Table, base: nat, magic: nat, size: nat)
    requires magic == OVERSIZE_MAGIC || magic == MEMALIGN_MAGIC
    requires Tagged(mem, base, if magic == OVERSIZE_MAGIC then MALLOC_MAGIC else MEMALIGN_MAGIC, size / U32)
    requires Tagged(mem, base + TAG, magic, size % U32) && size >= 2 * TAG
    requires HullContains(h.first, base, TAG) && HullContains(h.first, base + TAG, TAG) && Ours(h, t, base, size)
    ensures Slow(mem, h, t, base + 2 * TAG) ==
            Freed(magic == MEMALIGN_MAGIC, base, size, base, 2, size - 2 * TAG)
  {
    assert Back(base + 2 * TAG, TAG) == base + TAG && Back(base + TAG, TAG) == base;
    assert size % U32 + size / U32 * U32 == size;
  }

  lemma TwoTags(mem: Memory, base: nat, first: nat, second: nat, size: nat)
    requires first < U32 && second < U32 && size < U64
    ensures var mem' := PutTag(PutTag(mem, base, first, size / U32), base + TAG, second, size % U32);
            Tagged(mem', base, first, size / U32) && Tagged(mem', base + TAG, second, size % U32)
  {
    PutTagged(mem, base, first, size / U32);
    PutTagged(PutTag(mem, base, first, size / U32), base + TAG, second, size % U32);
  }

  lemma MallocTagsDecode(mem: Memory, base: nat, size: nat, h: Reads, t: Table)
    requires TAG <= size && Ours(h, t, base, size)
    ensures
      var over := if size > SECOND_ALIGN then 2 * TAG else TAG;
      var v := Slow(PutMallocTags(mem, base, size), h, t, base + over);
      v.Freed? && !v.memalign && v.base == base && v.size == size && v.data == size - over
  {
    TagsInside(h, base, size);
    var mem' := PutMallocTags(mem, base, size);
    if size >= U32 {
      TwoTags(mem, base, MALLOC_MAGIC, OVERSIZE_MAGIC, size);
      DecodeTwo(mem', h, t, base, OVERSIZE_MAGIC, size);
    } else if size > SECOND_ALIGN {
      PutTagged(mem, base + TAG, SECOND_MAGIC, size);
      DecodeOne(mem', h, t, base + TAG, base, SECOND_MAGIC, size);
    } else {
      PutTagged(mem, base, MALLOC_MAGIC, size);
      DecodeOne(mem', h, t, base, base, MALLOC_MAGIC, size);
    }
  }

  /** Whatever umem_malloc returns decodes to the same base, total size and requested size. */
  lemma MallocRoundTrip(mem: Memory, arg: nat, got: nat, h: Reads, t: Table)
    requires arg < U64 && Malloc(mem, arg, got).Allocated? && Ours(h, t, got, arg + Overhead(arg))
    ensures
      var a := Malloc(mem, arg, got);
      var v := Slow(a.mem, h, t, a.p);
      && v.Freed? && !v.memalign && v.base == got && v.size == arg + Overhead(arg) && v.data == arg
      && a.p == got + Overhead(arg)
  {
    TotalSizeExact(arg);
    MallocTagsDecode(mem, got, arg + Overhead(arg), h, t);
  }

  lemma MemalignWrites(mem: Memory, align: nat, arg: nat, got: nat)
    requires arg + 2 * TAG < U64 && Memalign(mem, align, arg, got).Allocated? && !PlainEnough(align, arg)
    ensures
      var a, size := Memalign(mem, align, arg, got), arg + 2 * TAG;
      && a.p == got + 2 * TAG
      && a.mem == PutTag(PutTag(mem, got, MEMALIGN_MAGIC, size / U32), got + TAG, MEMALIGN_MAGIC, size % U32)
  {
    assert (arg + 2 * TAG) % U64 == arg + 2 * TAG;
  }

  lemma MemalignRoundTrip(mem: Memory, align: nat, arg: nat, got: nat, h: Reads, t: Table)
    requires arg < U64 && Memalign(mem, align, arg, got).Allocated? && !PlainEnough(align, arg)
    requires Ours(h, t, got, arg + 2 * TAG)
    ensures
      var a := Memalign(mem, align, arg, got);
      var v := Slow(a.mem, h, t, a.p);
      && v.Freed? && v.memalign && v.base == got && v.size == arg + 2 * TAG && v.data == arg
  {
    var size := arg + 2 * TAG;
    MemalignWrites(mem, align, arg, got);
    var mem' := Memalign(mem, align, arg, got).mem;
    assert HullContains(h.first, got, TAG) && HullContains(h.first, got + TAG, TAG) by { TagsInside(h, got, size); }
    assert Tagged(mem', got, MEMALIGN_MAGIC, size / U32) && Tagged(mem', got + TAG, MEMALIGN_MAGIC, size % U32) by {
      TwoTags(mem, got, MEMALIGN_MAGIC, MEMALIGN_MAGIC, size);
    }
    DecodeTwo(mem', h, t, got, MEMALIGN_MAGIC, size);
  }

  // ---- the code ----

  /** The stat words of `n` tags from `lo` on, set to the free pattern. */
  function Poisoned(mem: Memory, lo: nat, n: nat): Memory
    decreases n
  {
    if n == 0 then mem else Poisoned(mem, lo, n - 1)[lo + (n - 1) * TAG + 4 := FREE_PATTERN]
  }

  /** The size word that the free pattern would complete to `magic`. */
  function Alias(magic: nat): nat { (magic - FREE_PATTERN) % U32 }

  /**
   * When a second free of `p`, whose `n` stat words the first one poisoned, is accepted: the
   * size word is the alias of one of the four magics, and the object that magic then names
   * passes the readability and ownership tests once more.
   */
  predicate SecondAccepted(mem: Memory, h: Reads, t: Table, p: nat, n: nat) {
    var b, b2 := Back(p, TAG), Back(Back(p, TAG), TAG);
    var size := Word(mem, b);
    var total := size + Word(mem, b2) * U32;
    && MayRead(h.first, h.head, b, TAG)
    && (|| (size == Alias(MALLOC_MAGIC) && MayOwn(h.first, h.own, t, b, size))
        || (size == Alias(SECOND_MAGIC) && MayOwn(h.first, h.own, t, b2, size))
        || (size == Alias(OVERSIZE_MAGIC) && MayRead(h.first, h.second, b2, TAG)
            && (if n == 1 then MagicAt(mem, b2) == MALLOC_MAGIC else Word(mem, b2) == Alias(MALLOC_MAGIC))
            && MayOwn(h.first, h.own, t, b2, total))
        || (size == Alias(MEMALIGN_MAGIC) && MayRead(h.first, h.second, b2, TAG)
            && (if n == 1 then MagicAt(mem, b2) == MEMALIGN_MAGIC else Word(mem, b2) == Alias(MEMALIGN_MAGIC))
            && MayOwn(h.first, h.own, t, b2, total)))
  }

  lemma AliasDecodes(size: nat, magic: nat)
    requires size < U32 && magic < U32
    ensures Decode(FREE_PATTERN, size) == magic <==> size == Alias(magic)
  {
  }

  lemma AliasWords()
    ensures Alias(MALLOC_MAGIC) == 0x5b630111 && Alias(SECOND_MAGIC) == 0x380cb111
    ensures Alias(OVERSIZE_MAGIC) == 0x2836b111 && Alias(MEMALIGN_MAGIC) == 0x5f8c5111
  {
  }

  /** What is accepted, by the magic the tag decodes to. */
  predicate AcceptedAs(mem: Memory, h: Reads, t: Table, b: nat, size: nat, magic: nat) {
    var b2 := Back(b, TAG);
    var total := size + Word(mem, b2) * U32;
    if magic == MALLOC_MAGIC then size >= TAG && MayOwn(h.first, h.own, t, b, size)
    else if magic == SECOND_MAGIC then size >= 2 * TAG && MayOwn(h.first, h.own, t, b2, size)
    else if magic == OVERSIZE_MAGIC || magic == MEMALIGN_MAGIC then
      && MayRead(h.first, h.second, b2, TAG)
      && MagicAt(mem, b2) == (if magic == OVERSIZE_MAGIC then MALLOC_MAGIC else MEMALIGN_MAGIC)
      && total >= 2 * TAG && MayOwn(h.first, h.own, t, b2, total)
    else false
  }

  lemma SlowAccepts(mem: Memory, h: Reads, t: Table, p: nat)
    requires p < U64
    ensures var b := Back(p, TAG);
            Slow(mem, h, t, p).Freed? <==>
            MayRead(h.first, h.head, b, TAG) && AcceptedAs(mem, h, t, b, Word(mem, b), MagicAt(mem, b))
  {
    assert Back(Back(p, TAG), TAG) != Back(p, TAG);
  }

  /** Where an accepted free poisons: the stat word of the tag at `p`, and of the one before it. */
  lemma PoisonPlace(mem: Memory, h: Reads, t: Table, p: nat)
    requires p < U64 && Slow(mem, h, t, p).Freed?
    ensures var v := Slow(mem, h, t, p);
            1 <= v.npoison <= 2 && v.npoison * TAG <= p && v.poison == p - v.npoison * TAG
  {
    var b := Back(p, TAG);
    HullExact(h.first, b, TAG);
    HullExact(h.head, b, TAG);
    var b2 := Back(b, TAG);
    HullExact(h.first, b2, TAG);
    HullExact(h.second, b2, TAG);
  }

  /** What the decoder finds in the tags after the poisoning. */
  lemma PoisonedTags(mem: Memory, p: nat, n: nat)
    requires 1 <= n <= 2 && n * TAG <= p && p < U64
    ensures var mem' := Poisoned(mem, p - n * TAG, n);
            && Word(mem', p - TAG) == Word(mem, p - TAG)
            && MagicAt(mem', p - TAG) == Decode(FREE_PATTERN, Word(mem, p - TAG))
            && (p >= 2 * TAG ==>
                  && Word(mem', p - 2 * TAG) == Word(mem, p - 2 * TAG)
                  && MagicAt(mem', p - 2 * TAG) ==
                     if n == 1 then MagicAt(mem, p - 2 * TAG) else Decode(FREE_PATTERN, Word(mem, p - 2 * TAG)))
  {
    assert Poisoned(mem, p - n * TAG, 1) == mem[p - n * TAG + 4 := FREE_PATTERN];
  }

  lemma SecondExact(mem: Memory, h: Reads, t: Table, p: nat, n: nat)
    requires 1 <= n <= 2 && n * TAG <= p && p < U64
    ensures Slow(Poisoned(mem, p - n * TAG, n), h, t, p).Freed? <==> SecondAccepted(mem, h, t, p, n)
  {
    var mem', b := Poisoned(mem, p - n * TAG, n), p - TAG;
    var b2 := Back(b, TAG);
    assert Back(p, TAG) == b;
    SlowAccepts(mem', h, t, p);
    PoisonedTags(mem, p, n);
    if MayRead(h.first, h.second, b2, TAG) {
      assert b2 == p - 2 * TAG by {
        HullExact(h.first, b2, TAG);
        HullExact(h.second, b2, TAG);
      }
    }
    if MayRead(h.first, h.head, b, TAG) { SecondAs(mem, mem', h, t, p, n); }
  }

  /** The layouts after the poisoning, by the alias that names each. */
  lemma SecondAs(mem: Memory, mem': Memory, h: Reads, t: Table, p: nat, n: nat)
    requires TAG <= p < U64 && MayRead(h.first, h.head, Back(p, TAG), TAG)
    requires var b := Back(p, TAG);
             && Word(mem', b) == Word(mem, b) && MagicAt(mem', b) == Decode(FREE_PATTERN, Word(mem, b))
    requires var b2 := Back(Back(p, TAG), TAG);
             MayRead(h.first, h.second, b2, TAG) ==>
               && Word(mem', b2) == Word(mem, b2)
               && MagicAt(mem', b2) == if n == 1 then MagicAt(mem, b2) else Decode(FREE_PATTERN, Word(mem, b2))
    ensures var b := Back(p, TAG);
            AcceptedAs(mem', h, t, b, Word(mem, b), Decode(FREE_PATTERN, Word(mem, b)))
            <==> SecondAccepted(mem, h, t, p, n)
  {
    var b := Back(p, TAG);
    var size, high := Word(mem, b), Word(mem, Back(b, TAG));
    AliasWords();
    AliasDecodes(size, MALLOC_MAGIC);
    AliasDecodes(size, SECOND_MAGIC);
    AliasDecodes(size, OVERSIZE_MAGIC);
    AliasDecodes(size, MEMALIGN_MAGIC);
    AliasDecodes(high, MALLOC_MAGIC);
    AliasDecodes(high, MEMALIGN_MAGIC);
  }

  /**
   * A second free of a pointer, at any later moment and whatever the heap looks like then,
   * is refused except when SecondAccepted says otherwise.
   */
  lemma DoubleFreeExact(mem: Memory, h: Reads, t: Table, p: nat, h': Reads, t': Table)
    requires p < U64 && Slow(mem, h, t, p).Freed?
    ensures var v := Slow(mem, h, t, p);
            Slow(Poisoned(mem, v.poison, v.npoison), h', t', p).Freed?
            <==> SecondAccepted(mem, h', t', p, v.npoison)
  {
    var n := Slow(mem, h, t, p).npoison;
    assert 1 <= n <= 2 && n * TAG <= p && Slow(mem, h, t, p).poison == p - n * TAG by { PoisonPlace(mem, h, t, p); }
    SecondExact(mem, h', t', p, n);
  }

  /** So only four size words, of 2^32, can be freed twice. */
  lemma DoubleFreeRefused(mem: Memory, h: Reads, t: Table, p: nat, h': Reads, t': Table)
    requires p < U64 && Slow(mem, h, t, p).Freed?
    requires Word(mem, Back(p, TAG)) !in {0x2836b111, 0x380cb111, 0x5b630111, 0x5f8c5111}
    ensures var v := Slow(mem, h, t, p);
            Slow(Poisoned(mem, v.poison, v.npoison), h', t', p).Refused?
  {
    DoubleFreeExact(mem, h, t, p, h', t');
    AliasWords();
    assert !SecondAccepted(mem, h', t', p, Slow(mem, h, t, p).npoison);
  }

  /** And one is: a buffer of 0x380cb101 bytes is accepted again, as long as its memory is umem's. */
  lemma DoubleFreeAccepted(mem: Memory, got: nat, h: Reads, t: Table)
    requires got > 0 && Ours(h, t, got, 0x380cb111)
    ensures
      var a := Malloc(mem, 0x380cb101, got);
      a.Allocated? &&
      var v := Slow(a.mem, h, t, a.p);
      v.Freed? && Slow(Poisoned(a.mem, v.poison, v.npoison), h, t, a.p) == v
  {
    var a, b := Malloc(mem, 0x380cb101, got), got + TAG;
    assert a.mem == PutTag(mem, b, SECOND_MAGIC, 0x380cb111) && a.p == b + TAG;
    assert Tagged(a.mem, b, SECOND_MAGIC, 0x380cb111) by { PutTagged(mem, b, SECOND_MAGIC, 0x380cb111); }
    assert HullContains(h.first, b, TAG) by { TagsInside(h, got, 0x380cb111); }
    DecodeOne(a.mem, h, t, b, got, SECOND_MAGIC, 0x380cb111);
    assert Tagged(Poisoned(a.mem, b, 1), b, SECOND_MAGIC, 0x380cb111) by { PoisonedTags(a.mem, a.p, 1); }
    DecodeOne(Poisoned(a.mem, b, 1), h, t, b, got, SECOND_MAGIC, 0x380cb111);
  }

  /** Memory, the thread's cached span, and the calls made to _umem_free (false) and vmem_xfree (true). */
  class Heap {
    var mem: Memory
    var cache: Cache
    var released: seq<(bool, nat, nat)>

    constructor ()
      ensures mem == map[] && cache == Cache(0, 0, 0) && released == []
    {
      mem, cache, released := map[], Cache(0, 0, 0), [];
    }

    method WriteTag(a: nat, magic: nat, size: nat)
      modifies this`mem
      ensures mem == PutTag(old(mem), a, magic, size)
    {
      mem := mem[a := size];
      mem := mem[a + 4 := (magic - size) % U32];
    }

    /** umem_malloc once umem is ready; `got` is what _umem_alloc returns. */
    method UmemMalloc(arg: nat, got: nat) returns (r: Allocation)
      requires arg < U64
      modifies this`mem
      ensures r == Malloc(old(mem), arg, got)
      ensures mem == if r.Allocated? then r.mem else old(mem)
    {
      var size, high := (arg + TAG) % U64, 0;
      if size > SECOND_ALIGN {
        size := (size + TAG) % U64;
        high := size / U32;
      }
      if size < arg { return NoMemory; }
      if got == 0 { return if size <= MAXBUF then Again else NoMemory; }
      var ret := got;
      if high > 0 {
        WriteTag(ret, MALLOC_MAGIC, high);
        ret := ret + TAG;
        WriteTag(ret, OVERSIZE_MAGIC, size % U32);
        ret := ret + TAG;
      } else if size > SECOND_ALIGN {
        ret := ret + TAG;
        WriteTag(ret, SECOND_MAGIC, size % U32);
        ret := ret + TAG;
      } else {
        WriteTag(ret, MALLOC_MAGIC, size);
        ret := ret + TAG;
      }
      r := Allocated(ret, mem);
    }

    /** span_owns_cached behind one of its hull tests. */
    method OwnsCached(k: Look, h: Hull, a: nat, len: nat) returns (yes: bool)
      modifies this`cache
      ensures (yes, cache) == Ask(old(cache), k, h, a, len)
    {
      if !HullContains(h, a, len) { return false; }
      var end := (a + len) % U64;
      if k.gen == cache.gen && a >= cache.lo && end <= cache.hi { return true; }
      match k.find(a, len)
      case None => yes := false;
      case Some(s) =>
        if s.0 != 0 && k.gen % 2 == 0 { cache := Cache(s.0, s.1, k.gen); }
        yes := true;
    }

    /** process_free_umem: a refused pointer changes nothing but the cached span and releases nothing. */
    method ProcessFree(p: nat, doFree: bool, h: Reads, k1: Look, k2: Look) returns (ok: bool, data: nat)
      modifies this
      ensures var (v, c) := CachedSlow(old(mem), h, k1, k2, old(cache), p);
              && ok == v.Freed? && cache == c
              && (ok ==> data == v.data)
              && mem == (if ok && doFree then Poisoned(old(mem), v.poison, v.npoison) else old(mem))
              && released == old(released) + (if ok && doFree then [(v.memalign, v.base, v.size)] else [])
    {
      var v := Layout(mem, h, p);
      ok, data := false, 0;
      if v.Freed? && v.size >= LeastSize(v) {
        ok := OwnsCached(k1, h.first, v.base, v.size);
        if !ok { ok := OwnsCached(k2, h.own, v.base, v.size); }
        data := v.data;
      }
      if ok && doFree {
        var i := 0;
        while i < v.npoison
          invariant i <= v.npoison && mem == Poisoned(old(mem), v.poison, i)
          invariant released == old(released) && cache == CachedSlow(old(mem), h, k1, k2, old(cache), p).1
        {
          mem := mem[v.poison + i * TAG + 4 := FREE_PATTERN];
          i := i + 1;
        }
        released := released + [(v.memalign, v.base, v.size)];
      }
    }

    /** The part of umem_malloc_free before its slow label. */
    method FreeFast(p: nat, fast: Hull, k: Look) returns (done: bool)
      modifies this
      ensures var (tried, c) := CachedFast(old(mem), fast, k, old(cache), p);
              && done == tried.Some? && cache == c
              && mem == (if done then Poisoned(old(mem), tried.value.poison, tried.value.npoison) else old(mem))
              && released == old(released) + (if done then [(false, tried.value.base, tried.value.size)] else [])
              && (done ==> !tried.value.memalign && tried.value.npoison == 1)
    {
      var b := Back(p, TAG);
      if !HullContains(fast, b, TAG) { return false; }
      var size, magic := Word(mem, b), MagicAt(mem, b);
      if magic != MALLOC_MAGIC && magic != SECOND_MAGIC { return false; }
      var base := if magic == MALLOC_MAGIC then b else Back(b, TAG);
      if size < (if magic == MALLOC_MAGIC then TAG else 2 * TAG) { return false; }
      done := OwnsCached(k, fast, base, size);
      if done {
        assert Poisoned(mem, b, 1) == Poisoned(mem, b, 0)[b + 4 := FREE_PATTERN];
        mem := mem[b + 4 := FREE_PATTERN];
        released := released + [(false, base, size)];
      }
    }

    /**
     * umem_malloc_free for a pointer the bootstrap registry does not have; while the table `t`
     * stays as it is, the effect is that of process_free_umem deciding by `t`.
     */
    method UmemFree(p: nat, fast: Hull, h: Reads, k0: Look, k1: Look, k2: Look, ghost t: Table)
      requires Widens(fast, h.first) && ReadsWiden(h) && p < U64
      modifies this
      ensures var (v, c) := MallocFree(old(mem), fast, h, k0, k1, k2, old(cache), p);
              && mem == (if p != 0 && v.Freed? then Poisoned(old(mem), v.poison, v.npoison) else old(mem))
              && released == old(released) + (if p != 0 && v.Freed? then [(v.memalign, v.base, v.size)] else [])
              && cache == (if p != 0 then c else old(cache))
      ensures TableOk(t) && CacheOk(old(cache), t) && Sees(k0, t, t) && Sees(k1, t, t) && Sees(k2, t, t) ==>
              var v := Slow(old(mem), h, t, p);
              && CacheOk(cache, t)
              && mem == (if p != 0 && v.Freed? then Poisoned(old(mem), v.poison, v.npoison) else old(mem))
              && released == old(released) + (if p != 0 && v.Freed? then [(v.memalign, v.base, v.size)] else [])
    {
      if p == 0 { return; }
      if TableOk(t) && CacheOk(cache, t) && Sees(k0, t, t) && Sees(k1, t, t) && Sees(k2, t, t) {
        FreeByTable(mem, fast, h, k0, k1, k2, cache, p, t);
      }
      var done := FreeFast(p, fast, k0);
      if !done {
        var ok, data := ProcessFree(p, true, h, k1, k2);
      }
    }
  }
}
