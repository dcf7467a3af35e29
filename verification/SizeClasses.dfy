/** The table of allocation size classes, its edits, and the size-to-cache table built from it. */
module SizeClasses {
  const MAXBUF: nat := 131072              // UMEM_MAXBUF
  const ALIGN: nat := 8                    // UMEM_ALIGN
  const SIZES: nat := 65                   // NUM_ALLOC_SIZES

  /** `n` classes, strictly increasing multiples of 8 ending at MAXBUF; zeros after them. */
  ghost predicate Classes(s: seq<nat>, n: nat) {
    && |s| == SIZES && 1 <= n <= SIZES && s[n - 1] == MAXBUF
    && (forall i :: 0 <= i < n ==> s[i] > 0 && s[i] % ALIGN == 0)
    && (forall i, j :: 0 <= i < j < n ==> s[i] < s[j])
    && (forall i :: n <= i < SIZES ==> s[i] == 0)
  }

  ghost predicate WellFormed(s: seq<nat>) { exists n :: Classes(s, n) }

  ghost predicate HasClass(s: seq<nat>, c: nat) { c > 0 && c in s }

  function RoundUp(n: nat): nat { (n + ALIGN - 1) / ALIGN * ALIGN }

  /** Slot `i` of the table the library starts with: steps of 8, 16, 32 and so on, then zeros. */
  function InitialAt(i: nat): nat {
    if i < 2 then 8 * (i + 1)
    else if i < 9 then 16 * i
    else if i < 13 then 128 + 32 * (i - 8)
    else if i < 17 then 256 + 64 * (i - 12)
    else if i < 21 then 512 + 128 * (i - 16)
    else if i < 25 then 1024 + 256 * (i - 20)
    else if i < 29 then 2048 + 512 * (i - 24)
    else if i < 33 then 4096 + 1024 * (i - 28)
    else if i < 37 then 8192 + 2048 * (i - 32)
    else if i < 39 then 16384 + 4096 * (i - 36)
    else if i < 46 then 24576 + 8192 * (i - 38)
    else if i < 49 then 81920 + 16384 * (i - 45)
    else 0
  }

  function Initial(): (s: seq<nat>) { seq(SIZES, i requires 0 <= i < SIZES => InitialAt(i)) }

  // ---- the edits, on values ----

  function Cleared(): (s: seq<nat>) { seq(SIZES, i => if i == 0 then MAXBUF else 0) }

  /** First slot holding `size` or something larger; SIZES if there is none. */
  function Slot(s: seq<nat>, size: nat, i: nat): (k: nat)
    requires |s| == SIZES && i <= SIZES
    ensures i <= k <= SIZES && (k < SIZES ==> s[k] >= size)
    ensures forall j :: i <= j < k ==> s[j] < size
    decreases |s| - i
  {
    if i == SIZES || s[i] >= size then i else Slot(s, size, i + 1)
  }

  function InsertedAt(s: seq<nat>, k: nat, size: nat): seq<nat>
    requires |s| == SIZES && k < SIZES
  {
    s[..k] + [size] + s[k..SIZES - 1]
  }

  /** umem_alloc_sizes_add. */
  function Added(s: seq<nat>, arg: nat): seq<nat>
    requires |s| == SIZES
  {
    if arg == 0 || arg > MAXBUF || s[SIZES - 1] != 0 then s
    else
      var size := RoundUp(arg);
      var k := Slot(s, size, 0);
      if k == SIZES || s[k] == size then s else InsertedAt(s, k, size)
  }

  /** umem_alloc_sizes_remove's search: the slot to drop, or None when the size is not there. */
  function Victim(s: seq<nat>, size: nat, i: nat): (k: nat)
    requires |s| == SIZES && i <= SIZES
    ensures i <= k <= SIZES
    ensures forall j :: i <= j < k ==> s[j] != size && s[j] <= size && s[j] != 0
    ensures k < SIZES ==> s[k] == size || s[k] > size || s[k] == 0
    decreases |s| - i
  {
    if i == SIZES || s[i] == size || s[i] > size || s[i] == 0 then i else Victim(s, size, i + 1)
  }

  /** Does the search run off the end, so that the code clears the slot past the table? */
  predicate Overruns(s: seq<nat>, size: nat)
    requires |s| == SIZES
  {
    size != MAXBUF && Victim(s, size, 0) == SIZES
  }

  function DroppedAt(s: seq<nat>, k: nat): seq<nat>
    requires |s| == SIZES && k < SIZES
  {
    s[..k] + s[k + 1..] + [0]
  }

  function Removed(s: seq<nat>, size: nat): seq<nat>
    requires |s| == SIZES
  {
    var k := Victim(s, size, 0);
    if size == MAXBUF || k == SIZES || s[k] != size then s else DroppedAt(s, k)
  }

  // ---- every edit keeps the table well formed ----

  lemma {:induction false} InitialClimbs(i: nat, j: nat)
    requires i < j < 49
    ensures InitialAt(i) < InitialAt(j)
    decreases j
  {
    if i + 1 < j { InitialClimbs(i, j - 1); }
  }

  lemma InitialOk()
    ensures WellFormed(Initial())
  {
    InitialIs49();
  }

  lemma InitialIs49()
    ensures Classes(Initial(), 49)
  {
    var s := Initial();
    forall i, j | 0 <= i < j < 49 ensures s[i] < s[j] { InitialClimbs(i, j); }
    forall i | 0 <= i < 49 ensures s[i] > 0 && s[i] % ALIGN == 0 { InitialAligned(i); }
    assert s[48] == MAXBUF && forall i :: 49 <= i < SIZES ==> s[i] == 0;
  }

  lemma InitialAligned(i: nat)
    requires i < 49
    ensures InitialAt(i) > 0 && InitialAt(i) % ALIGN == 0
  {
  }

  lemma ClearedOk()
    ensures WellFormed(Cleared()) && forall c :: HasClass(Cleared(), c) <==> c == MAXBUF
  {
    assert Classes(Cleared(), 1);
    assert Cleared()[0] == MAXBUF;
  }

  lemma RoundUpOk(n: nat)
    requires 0 < n <= MAXBUF
    ensures RoundUp(n) % ALIGN == 0 && n <= RoundUp(n) < n + ALIGN && RoundUp(n) <= MAXBUF
  {
  }

  lemma InsertedOk(s: seq<nat>, n: nat, k: nat, size: nat)
    requires Classes(s, n) && n < SIZES && k < n && size > 0 && size % ALIGN == 0 && size < s[k]
    requires forall j :: 0 <= j < k ==> s[j] < size
    ensures Classes(InsertedAt(s, k, size), n + 1)
  {
    var r := InsertedAt(s, k, size);
    assert forall i :: 0 <= i < SIZES ==> r[i] == (if i < k then s[i] else if i == k then size else s[i - 1]);
  }

  lemma InsertedHas(s: seq<nat>, n: nat, k: nat, size: nat)
    requires Classes(s, n) && n < SIZES && k < n && size > 0
    ensures forall c :: HasClass(InsertedAt(s, k, size), c) <==> HasClass(s, c) || c == size
  {
    var r := InsertedAt(s, k, size);
    forall c ensures HasClass(r, c) <==> HasClass(s, c) || c == size {
      if HasClass(s, c) {
        var i :| 0 <= i < SIZES && s[i] == c;
        assert i < n;
        assert r[if i < k then i else i + 1] == c;
      }
      assert r[k] == size;
    }
  }

  /** Adding makes the rounded size a class, and no other; a refused request changes nothing. */
  lemma AddedOk(s: seq<nat>, arg: nat)
    requires WellFormed(s)
    ensures WellFormed(Added(s, arg))
    ensures var took := 0 < arg <= MAXBUF && s[SIZES - 1] == 0;
            forall c :: HasClass(Added(s, arg), c) <==> HasClass(s, c) || (took && c == RoundUp(arg))
  {
    var n :| Classes(s, n);
    if 0 < arg <= MAXBUF && s[SIZES - 1] == 0 {
      var size := RoundUp(arg);
      RoundUpOk(arg);
      var k := Slot(s, size, 0);
      assert k < n;
      if s[k] != size {
        InsertedOk(s, n, k, size);
        InsertedHas(s, n, k, size);
      }
    }
  }

  lemma SlotInside(s: seq<nat>, arg: nat)
    requires WellFormed(s)
    ensures 0 < arg <= MAXBUF ==> Slot(s, RoundUp(arg), 0) < SIZES
  {
    var n :| Classes(s, n);
    if 0 < arg <= MAXBUF { RoundUpOk(arg); }
  }

  lemma DroppedAtSlot(s: seq<nat>, k: nat, i: nat)
    requires |s| == SIZES && k < SIZES && i < SIZES
    ensures DroppedAt(s, k)[i] == if i < k then s[i] else if i < SIZES - 1 then s[i + 1] else 0
  {
  }

  lemma DroppedOk(s: seq<nat>, n: nat, k: nat)
    requires Classes(s, n) && k < n - 1
    ensures Classes(DroppedAt(s, k), n - 1)
  {
    forall i | 0 <= i < SIZES
      ensures DroppedAt(s, k)[i] == if i < k then s[i] else if i < SIZES - 1 then s[i + 1] else 0
    {
      DroppedAtSlot(s, k, i);
    }
  }

  lemma DroppedHas(s: seq<nat>, n: nat, k: nat)
    requires Classes(s, n) && k < n - 1
    ensures forall c :: HasClass(DroppedAt(s, k), c) <==> HasClass(s, c) && c != s[k]
  {
    var r := DroppedAt(s, k);
    forall c ensures HasClass(r, c) <==> HasClass(s, c) && c != s[k] {
      if HasClass(s, c) && c != s[k] {
        var i :| 0 <= i < SIZES && s[i] == c;
        DroppedAtSlot(s, k, if i < k then i else i - 1);
      }
      if HasClass(r, c) {
        var i :| 0 <= i < SIZES && r[i] == c;
        DroppedAtSlot(s, k, i);
      }
    }
  }

  /** Removing takes out that class alone; the largest class and unknown sizes stay. */
  lemma RemovedOk(s: seq<nat>, size: nat)
    requires WellFormed(s)
    ensures WellFormed(Removed(s, size))
    ensures forall c :: HasClass(Removed(s, size), c) <==> HasClass(s, c) && (c != size || size == MAXBUF)
  {
    var n :| Classes(s, n);
    var k := Victim(s, size, 0);
    if size != MAXBUF && k < SIZES && s[k] == size && size != 0 {
      DroppedOk(s, n, k);
      DroppedHas(s, n, k);
    } else if size != MAXBUF {
      NotThere(s, n, size);
    }
  }

  lemma NotThere(s: seq<nat>, n: nat, size: nat)
    requires Classes(s, n) && size != MAXBUF
    requires var k := Victim(s, size, 0); k == SIZES || s[k] != size || size == 0
    ensures !HasClass(s, size) && Removed(s, size) == s
  {
    assert s[0] > 0;
    if size > 0 {
      forall i | 0 <= i < n ensures s[i] != size { NotAt(s, n, size, i); }
    }
  }

  lemma NotAt(s: seq<nat>, n: nat, size: nat, i: nat)
    requires Classes(s, n) && i < n
    requires var k := Victim(s, size, 0); k == SIZES || s[k] != size
    ensures s[i] != size
  {
    var k := Victim(s, size, 0);
    if k < i { assert s[k] < s[i]; }
  }

  /** The removal writes past the table exactly for a size above the largest class on a table with no free slot. */
  lemma OverrunsExactly(s: seq<nat>, size: nat)
    requires WellFormed(s)
    ensures Overruns(s, size) <==> size > MAXBUF && s[SIZES - 1] != 0
  {
    var n :| Classes(s, n);
    var k := Victim(s, size, 0);
    assert k < SIZES ==> size <= MAXBUF || s[k] == 0;
  }

  // ---- any sequence of edits ----

  datatype Edit = ClearAll | AddSize(n: nat) | RemoveSize(n: nat)

  function Edited(s: seq<nat>, e: Edit): (r: seq<nat>)
    requires |s| == SIZES
    ensures |r| == SIZES
  {
    match e
    case ClearAll => Cleared()
    case AddSize(n) => Added(s, n)
    case RemoveSize(n) => Removed(s, n)
  }

  function EditedBy(s: seq<nat>, es: seq<Edit>): (r: seq<nat>)
    requires |s| == SIZES
    ensures |r| == SIZES
    decreases |es|
  {
    if es == [] then s else EditedBy(Edited(s, es[0]), es[1..])
  }

  /** Any edits whatever leave a well-formed table well formed. */
  lemma {:induction false} EditsKeep(s: seq<nat>, es: seq<Edit>)
    requires WellFormed(s)
    ensures WellFormed(EditedBy(s, es))
    decreases |es|
  {
    if es != [] {
      match es[0]
      case ClearAll => ClearedOk(); EditsKeep(Cleared(), es[1..]);
      case AddSize(n) => AddedOk(s, n); EditsKeep(Added(s, n), es[1..]);
      case RemoveSize(n) => RemovedOk(s, n); EditsKeep(Removed(s, n), es[1..]);
    }
  }

  /** Which edit of a sequence writes past the table: a removal above MAXBUF while the table is full. */
  lemma EditOverruns(s: seq<nat>, es: seq<Edit>, k: nat)
    requires WellFormed(s) && k < |es| && es[k].RemoveSize?
    ensures var now := EditedBy(s, es[..k]);
            WellFormed(now) && (Overruns(now, es[k].n) <==> es[k].n > MAXBUF && now[SIZES - 1] != 0)
  {
    EditsKeep(s, es[..k]);
    OverrunsExactly(EditedBy(s, es[..k]), es[k].n);
  }

  lemma AddedNew(s: seq<nat>, n: nat, arg: nat)
    requires Classes(s, n) && n < SIZES && 0 < arg <= MAXBUF && !HasClass(s, RoundUp(arg))
    ensures Classes(Added(s, arg), n + 1)
  {
    RoundUpOk(arg);
    var k := Slot(s, RoundUp(arg), 0);
    assert k < n;
    InsertedOk(s, n, k, RoundUp(arg));
  }

  /** The sizes added just below the largest class, from the `m`th on to the sixteenth. */
  function AddsFrom(m: nat): seq<Edit>
    requires m <= 16
    decreases 16 - m
  {
    if m == 16 then [] else [AddSize(MAXBUF - 8 * (m + 1))] + AddsFrom(m + 1)
  }

  /** No class between the two largest initial ones, but for the last `m` below the top. */
  ghost predicate TopAt(s: seq<nat>, m: nat, c: nat) { HasClass(s, c) ==> c <= 114688 || c >= MAXBUF - 8 * m }

  ghost predicate Top(s: seq<nat>, m: nat) { forall c :: TopAt(s, m, c) }

  lemma TopMore(s: seq<nat>, m: nat, size: nat)
    requires WellFormed(s) && Top(s, m) && size == MAXBUF - 8 * (m + 1) && m < 16
    ensures Top(Added(s, size), m + 1)
  {
    var s', n := Added(s, size), m + 1;
    forall c ensures TopAt(s', n, c) {
      assert HasClass(s', c) ==> HasClass(s, c) || c == size by {
        assert RoundUp(size) == size;
        AddedOk(s, size);
      }
      assert TopAt(s, m, c);
    }
  }

  lemma AddFills(s: seq<nat>, m: nat)
    requires m < 16 && Classes(s, 49 + m) && Top(s, m)
    ensures Classes(Added(s, MAXBUF - 8 * (m + 1)), 50 + m) && Top(Added(s, MAXBUF - 8 * (m + 1)), m + 1)
  {
    var size := MAXBUF - 8 * (m + 1);
    assert RoundUp(size) == size;
    assert TopAt(s, m, size);
    AddedNew(s, 49 + m, size);
    TopMore(s, m, size);
  }

  lemma {:induction false} AddsFill(s: seq<nat>, m: nat)
    requires m <= 16 && Classes(s, 49 + m) && Top(s, m)
    ensures Classes(EditedBy(s, AddsFrom(m)), SIZES)
    decreases 16 - m
  {
    if m < 16 {
      var s' := Added(s, MAXBUF - 8 * (m + 1));
      AddFills(s, m);
      AddsFill(s', m + 1);
      assert AddsFrom(m)[1..] == AddsFrom(m + 1);
      assert EditedBy(s, AddsFrom(m)) == EditedBy(s', AddsFrom(m + 1));
    }
  }

  lemma InitialTop()
    ensures Top(Initial(), 0)
  {
    forall c ensures TopAt(Initial(), 0, c) {
      if HasClass(Initial(), c) {
        var i :| 0 <= i < SIZES && Initial()[i] == c;
        if i < 47 { InitialClimbs(i, 47); }
      }
    }
  }

  /** It happens: sixteen more classes fill the table, and then a removal writes past it. */
  lemma OverrunHappens()
    ensures Overruns(EditedBy(Initial(), AddsFrom(0)), MAXBUF + 1)
  {
    InitialIs49();
    InitialTop();
    AddsFill(Initial(), 0);
    OverrunsExactly(EditedBy(Initial(), AddsFrom(0)), MAXBUF + 1);
  }

  // ---- the table built from the classes ----

  /** The smallest class a request fits in. */
  ghost predicate Smallest(s: seq<nat>, size: nat, c: nat) {
    HasClass(s, c) && size <= c && forall d :: HasClass(s, d) && size <= d ==> c <= d
  }

  lemma SmallestAt(s: seq<nat>, n: nat, i: nat, size: nat)
    requires Classes(s, n) && i < n && size <= s[i] && (i > 0 ==> s[i - 1] < size)
    ensures Smallest(s, size, s[i])
  {
    forall j | 0 <= j < i ensures s[j] < size {
      if j < i - 1 { assert s[j] < s[i - 1]; }
    }
    forall d | HasClass(s, d) && size <= d ensures s[i] <= d {
      var j :| 0 <= j < SIZES && s[j] == d;
      assert i <= j < n;
    }
  }

  ghost predicate MapsAt(table: seq<nat>, s: seq<nat>, z: int) {
    1 <= z <= MAXBUF ==> |table| == MAXBUF / ALIGN && Smallest(s, z, table[(z - 1) / ALIGN])
  }

  /** Requests up to `top` find the smallest class that holds them. */
  ghost predicate MapsUpTo(table: seq<nat>, s: seq<nat>, top: int) {
    forall z :: z <= top ==> MapsAt(table, s, z)
  }

  lemma MapsOn(table: seq<nat>, table': seq<nat>, s: seq<nat>, n: nat, i: nat, size: nat)
    requires Classes(s, n) && i < n && |table| == |table'| == MAXBUF / ALIGN
    requires size % ALIGN == 0 && ALIGN <= size <= s[i] <= MAXBUF && (i > 0 ==> s[i - 1] <= size - ALIGN)
    requires table' == table[(size - 1) / ALIGN := s[i]] && MapsUpTo(table, s, size - ALIGN)
    ensures MapsUpTo(table', s, size)
  {
    forall z | z <= size ensures MapsAt(table', s, z) {
      if 1 <= z <= size - ALIGN {
        assert MapsAt(table, s, z) && (z - 1) / ALIGN < (size - 1) / ALIGN;
      } else if 1 <= z {
        assert (z - 1) / ALIGN == (size - 1) / ALIGN;
        SmallestAt(s, n, i, z);
      }
    }
  }

  // ---- the code ----

  /** The table, and the word that lies after it. */
  class SizeTable {
    const sizes: array<nat>
    var past: int

    constructor (after: int)
      ensures fresh(sizes) && sizes[..] == Initial() && WellFormed(sizes[..]) && past == after
    {
      sizes := new nat[SIZES](i requires 0 <= i < SIZES => InitialAt(i));
      past := after;
      new;
      assert sizes[..] == Initial();
      InitialOk();
    }

    method Clear()
      requires sizes.Length == SIZES
      modifies sizes
      ensures sizes[..] == Cleared()
    {
      sizes[0] := MAXBUF;
      var i := 1;
      while i < SIZES
        invariant 1 <= i <= SIZES && sizes[0] == MAXBUF && forall j :: 1 <= j < i ==> sizes[j] == 0
      {
        sizes[i] := 0;
        i := i + 1;
      }
    }

    /** Put `size` at `k`: every slot from there on moves up by one, the last one is lost. */
    method Insert(k: nat, size: nat)
      requires sizes.Length == SIZES && k < SIZES
      modifies sizes
      ensures sizes[..] == InsertedAt(old(sizes[..]), k, size)
    {
      ghost var s := sizes[..];
      var j := SIZES - 1;
      while j > k
        invariant k <= j < SIZES
        invariant forall i :: 0 <= i <= j ==> sizes[i] == s[i]
        invariant forall i :: j < i < SIZES ==> sizes[i] == s[i - 1]
      {
        sizes[j] := sizes[j - 1];
        j := j - 1;
      }
      sizes[k] := size;
    }

    /** Close the gap at `k`: every slot after it moves down by one, the last becomes zero. */
    method ShiftDown(k: nat)
      requires sizes.Length == SIZES && k < SIZES
      modifies sizes
      ensures sizes[..] == DroppedAt(old(sizes[..]), k)
    {
      ghost var s := sizes[..];
      var i := k;
      while i + 1 < SIZES
        invariant k <= i < SIZES
        invariant forall j :: 0 <= j < k ==> sizes[j] == s[j]
        invariant forall j :: k <= j < i ==> sizes[j] == s[j + 1]
        invariant forall j :: i <= j < SIZES ==> sizes[j] == s[j]
      {
        sizes[i] := sizes[i + 1];
        i := i + 1;
      }
      sizes[i] := 0;
    }

    method FindSlot(size: nat) returns (i: nat)
      requires sizes.Length == SIZES
      ensures i == Slot(sizes[..], size, 0)
    {
      i := 0;
      while i < SIZES && sizes[i] < size
        invariant i <= SIZES && Slot(sizes[..], size, i) == Slot(sizes[..], size, 0)
      {
        i := i + 1;
      }
    }

    method FindVictim(size: nat) returns (i: nat)
      requires sizes.Length == SIZES
      ensures i == Victim(sizes[..], size, 0)
    {
      i := 0;
      while i < SIZES && sizes[i] != size
        invariant i <= SIZES && Victim(sizes[..], size, i) == Victim(sizes[..], size, 0)
      {
        if sizes[i] > size || sizes[i] == 0 { return; }
        i := i + 1;
      }
    }

    method Add(arg: nat)
      requires sizes.Length == SIZES && WellFormed(sizes[..])
      modifies sizes
      ensures sizes[..] == Added(old(sizes[..]), arg) && WellFormed(sizes[..])
    {
      AddedOk(sizes[..], arg);
      SlotInside(sizes[..], arg);
      if arg == 0 || arg > MAXBUF || sizes[SIZES - 1] != 0 { return; }
      var size := RoundUp(arg);
      var i := FindSlot(size);
      if sizes[i] == size { return; }
      Insert(i, size);
    }

    /** umem_alloc_sizes_remove; where the search runs off the table the code clears the word after it. */
    method Remove(size: nat)
      requires sizes.Length == SIZES && WellFormed(sizes[..])
      modifies sizes, this`past
      ensures sizes[..] == Removed(old(sizes[..]), size) && WellFormed(sizes[..])
      ensures past == if size > MAXBUF && old(sizes[SIZES - 1]) != 0 then 0 else old(past)
    {
      RemovedOk(sizes[..], size);
      OverrunsExactly(sizes[..], size);
      if size == MAXBUF { return; }
      var i := FindVictim(size);
      if i == SIZES {
        past := 0;
        return;
      }
      if sizes[i] != size { return; }
      ShiftDown(i);
    }

    /** umem_alloc_table: every size from 1 to MAXBUF maps to the smallest class that holds it. */
    method Build() returns (table: array<nat>)
      requires sizes.Length == SIZES && WellFormed(sizes[..])
      ensures table.Length == MAXBUF / ALIGN
      ensures MapsUpTo(table[..], sizes[..], MAXBUF)
    {
      table := new nat[MAXBUF / ALIGN];
      ghost var n :| Classes(sizes[..], n);
      var i, size := 0, ALIGN;
      while i < SIZES && sizes[i] != 0
        invariant i <= n && size == (if i == 0 then 0 else sizes[i - 1]) + ALIGN
        invariant MapsUpTo(table[..], sizes[..], size - ALIGN)
      {
        size := Fill(table, size, i, n);
        i := i + 1;
      }
      assert i == n;
    }

    /** One class's stretch of the table. */
    method Fill(table: array<nat>, from: nat, i: nat, ghost n: nat) returns (size: nat)
      requires sizes.Length == SIZES && Classes(sizes[..], n) && i < n
      requires table.Length == MAXBUF / ALIGN && table != sizes
      requires from == (if i == 0 then 0 else sizes[i - 1]) + ALIGN
      requires MapsUpTo(table[..], sizes[..], from - ALIGN)
      modifies table
      ensures size == sizes[i] + ALIGN
      ensures MapsUpTo(table[..], sizes[..], size - ALIGN)
    {
      size := from;
      while size <= sizes[i]
        invariant from <= size <= sizes[i] + ALIGN && size % ALIGN == 0
        invariant MapsUpTo(table[..], sizes[..], size - ALIGN)
      {
        assert sizes[i] <= MAXBUF by { assert i < n - 1 ==> sizes[i] < sizes[n - 1]; }
        ghost var was := table[..];
        table[(size - 1) / ALIGN] := sizes[i];
        MapsOn(was, table[..], sizes[..], n, i, size);
        size := size + ALIGN;
      }
    }
  }
}
