/** Hash space divided among claimants: building the intervals and finding the one a hash is in. */
module HashPartition {
  import opened Collections

  const MAX: nat := 0xffff_ffff_ffff_ffff  // UINT64_MAX_VAL
  const CLAIMANTS: nat := 1024             // MAX_CLAIMANTS
  const NAMELEN: nat := 255                // MAX_NAME_LEN - 1

  datatype Share = Share(name: string, size: nat)

  /** The intervals in order: where each begins, how wide it is, and whose it is. */
  datatype Parts = Parts(lower: seq<nat>, width: seq<nat>, name: seq<string>)

  function Clipped(name: string): string { if |name| > NAMELEN then name[..NAMELEN] else name }

  /** Where the next interval would begin. */
  function End(p: Parts): nat
    requires |p.lower| == |p.width|
  {
    if p.lower == [] then 0 else p.lower[|p.lower| - 1] + p.width[|p.lower| - 1]
  }

  ghost predicate BoundAt(p: Parts, k: nat)
    requires |p.lower| == |p.width| && k < |p.lower|
  {
    p.width[k] > 0 && p.lower[k] == if k == 0 then 0 else p.lower[k - 1] + p.width[k - 1]
  }

  /** Adjoining intervals of some width that begin at 0. */
  ghost predicate Adjoin(p: Parts) {
    |p.lower| == |p.width| == |p.name| && forall k :: 0 <= k < |p.lower| ==> BoundAt(p, k)
  }

  /** The intervals cover the whole hash space. */
  ghost predicate Covers(p: Parts) { Adjoin(p) && p.lower != [] && End(p) == MAX }

  function Sum(s: seq<nat>): nat { if s == [] then 0 else Sum(s[..|s| - 1]) + s[|s| - 1] }

  lemma {:induction false} WidthsUpTo(p: Parts, k: nat)
    requires Adjoin(p) && k < |p.width|
    ensures Sum(p.width[..k + 1]) == p.lower[k] + p.width[k]
  {
    assert BoundAt(p, k) && p.width[..k + 1][..k] == p.width[..k];
    if k > 0 { WidthsUpTo(p, k - 1); }
  }

  /** The widths of covering intervals add up to 2^64 - 1. */
  lemma WidthsSum(p: Parts)
    requires Covers(p)
    ensures Sum(p.width) == MAX
  {
    WidthsUpTo(p, |p.width| - 1);
    assert p.width[..|p.width|] == p.width;
  }

  lemma {:induction false} BoundsBefore(p: Parts, i: nat, j: nat)
    requires Adjoin(p) && i < j < |p.lower|
    ensures p.lower[i] + p.width[i] <= p.lower[j]
    decreases j
  {
    assert BoundAt(p, j) && BoundAt(p, j - 1);
    if i < j - 1 { BoundsBefore(p, i, j - 1); }
  }

  ghost predicate Increasing(s: seq<nat>) { forall i, j :: 0 <= i < j < |s| ==> s[i] < s[j] }

  /** Covering intervals begin at 0 and at strictly increasing bounds, and none passes the top. */
  lemma BoundsIncrease(p: Parts)
    requires Covers(p)
    ensures p.lower[0] == 0 && Increasing(p.lower)
    ensures forall k :: 0 <= k < |p.lower| ==> p.lower[k] + p.width[k] <= MAX
  {
    assert BoundAt(p, 0);
    forall i, j | 0 <= i < j < |p.lower| ensures p.lower[i] < p.lower[j] {
      assert BoundAt(p, i);
      BoundsBefore(p, i, j);
    }
    forall k | 0 <= k < |p.lower| ensures p.lower[k] + p.width[k] <= MAX {
      if k < |p.lower| - 1 { BoundsBefore(p, k, |p.lower| - 1); }
    }
  }

  function Extend(p: Parts, lower: nat, width: nat, name: string): Parts {
    Parts(p.lower + [lower], p.width + [width], p.name + [Clipped(name)])
  }

  function Widen(p: Parts, more: nat): Parts
    requires p.width != []
  {
    p.(width := p.width[|p.width| - 1 := p.width[|p.width| - 1] + more])
  }

  lemma ExtendAdjoins(p: Parts, width: nat, name: string)
    requires Adjoin(p) && width > 0
    ensures Adjoin(Extend(p, End(p), width, name)) && End(Extend(p, End(p), width, name)) == End(p) + width
  {
    var q := Extend(p, End(p), width, name);
    forall k | 0 <= k < |q.lower| ensures BoundAt(q, k) {
      if k < |p.lower| { assert BoundAt(p, k); }
    }
  }

  lemma WidenCovers(p: Parts, more: nat)
    requires Adjoin(p) && p.lower != [] && End(p) + more == MAX
    ensures Covers(Widen(p, more))
  {
    var q := Widen(p, more);
    forall k | 0 <= k < |q.lower| ensures BoundAt(q, k) { assert BoundAt(p, k); }
  }

  /** Which shares the intervals are: `from` has their positions, in order, none with a size passed over. */
  ghost predicate Taken(p: Parts, sizes: seq<Share>, from: seq<nat>, i: nat)
    requires i <= |sizes|
  {
    && |from| == |p.name| == |p.width|
    && (forall k :: 0 <= k < |from| ==>
          from[k] < i && sizes[from[k]].size > 0 && p.name[k] == Clipped(sizes[from[k]].name))
    && (forall k, l :: 0 <= k < l < |from| ==> from[k] < from[l])
    && (forall j :: 0 <= j < i && sizes[j].size > 0 ==> j in from)
  }

  /** Every interval but the last is as wide as its share asked for, the last at least what was left for it. */
  ghost predicate Granted(p: Parts, sizes: seq<Share>, from: seq<nat>)
    requires |from| == |p.width| && forall k :: 0 <= k < |from| ==> from[k] < |sizes|
  {
    forall k :: 0 <= k < |from| - 1 ==> p.width[k] == sizes[from[k]].size
  }

  /** The last interval so far: just what its share asked for, or all that was left. */
  ghost predicate LastOk(p: Parts, sizes: seq<Share>, from: seq<nat>)
    requires |from| == |p.width| == |p.lower| && forall k :: 0 <= k < |from| ==> from[k] < |sizes|
  {
    from != [] ==>
      var n := |from| - 1;
      && p.width[n] <= sizes[from[n]].size
      && (End(p) < MAX ==> p.width[n] == sizes[from[n]].size)
  }

  ghost predicate SoFar(p: Parts, sizes: seq<Share>, from: seq<nat>, i: nat) {
    && i <= |sizes| && Adjoin(p) && End(p) <= MAX
    && Taken(p, sizes, from, i) && Granted(p, sizes, from) && LastOk(p, sizes, from)
  }

  lemma SkipShare(p: Parts, sizes: seq<Share>, from: seq<nat>, i: nat)
    requires SoFar(p, sizes, from, i) && i < |sizes| && sizes[i].size == 0
    ensures SoFar(p, sizes, from, i + 1)
  {
  }

  lemma TakenMore(p: Parts, sizes: seq<Share>, from: seq<nat>, i: nat, lower: nat, sz: nat)
    requires i < |sizes| && Taken(p, sizes, from, i) && sizes[i].size > 0
    ensures Taken(Extend(p, lower, sz, sizes[i].name), sizes, from + [i], i + 1)
  {
    forall j | 0 <= j < i + 1 && sizes[j].size > 0 ensures j in from + [i] {
      if j < i { assert j in from; }
    }
  }

  lemma TakeShare(p: Parts, sizes: seq<Share>, from: seq<nat>, i: nat, sz: nat)
    requires SoFar(p, sizes, from, i) && i < |sizes| && sizes[i].size > 0 && End(p) < MAX
    requires sz == if sizes[i].size > MAX - End(p) then MAX - End(p) else sizes[i].size
    ensures var q := Extend(p, End(p), sz, sizes[i].name);
            SoFar(q, sizes, from + [i], i + 1) && End(q) == End(p) + sz
  {
    ExtendAdjoins(p, sz, sizes[i].name);
    TakenMore(p, sizes, from, i, End(p), sz);
  }

  /** The loop over the shares; it stops early only when the space is used up. */
  method TakeShares(sizes: seq<Share>) returns (p: Parts, remaining: nat, ghost from: seq<nat>, ghost used: nat)
    ensures SoFar(p, sizes, from, used) && remaining == MAX - End(p) && (used < |sizes| ==> remaining == 0)
  {
    p, remaining, from := Parts([], [], []), MAX, [];
    var next, i := 0, 0;
    while i < |sizes| && remaining > 0
      invariant SoFar(p, sizes, from, i) && next == End(p) && remaining == MAX - next
    {
      var sz := sizes[i].size;
      if sz == 0 {
        SkipShare(p, sizes, from, i);
      } else {
        if sz > remaining { sz := remaining; }
        TakeShare(p, sizes, from, i, sz);
        p := Extend(p, next, sz, sizes[i].name);
        from := from + [i];
        next, remaining := next + sz, remaining - sz;
      }
      i := i + 1;
    }
    used := i;
  }

  /**
   * The partition asked for: intervals that cover the space, in the order of the shares that
   * have a size; only when the space is used up are later shares passed over.
   */
  ghost predicate Divides(p: Parts, sizes: seq<Share>, from: seq<nat>, used: nat) {
    && Covers(p) && used <= |sizes| && Taken(p, sizes, from, used) && Granted(p, sizes, from)
    && (used < |sizes| ==> LastOk(p, sizes, from))
  }

  lemma WidenDivides(p: Parts, sizes: seq<Share>, from: seq<nat>, used: nat)
    requires SoFar(p, sizes, from, used) && p.lower != [] && (used < |sizes| ==> End(p) == MAX)
    ensures Divides(if End(p) < MAX then Widen(p, MAX - End(p)) else p, sizes, from, used)
  {
    if End(p) < MAX { WidenCovers(p, MAX - End(p)); }
  }

  lemma SomeShare(p: Parts, sizes: seq<Share>, from: seq<nat>, used: nat)
    requires SoFar(p, sizes, from, used) && (used < |sizes| ==> End(p) == MAX)
    ensures p.lower == [] <==> forall i :: 0 <= i < |sizes| ==> sizes[i].size == 0
  {
    if p.lower != [] { assert sizes[from[0]].size > 0; }
  }

  method CreateWithSizes(sizes: seq<Share>) returns (r: Option<Parts>, ghost from: seq<nat>, ghost used: nat)
    ensures r.None? <==> |sizes| > CLAIMANTS || forall i :: 0 <= i < |sizes| ==> sizes[i].size == 0
    ensures r.Some? ==> Divides(r.value, sizes, from, used)
  {
    from, used := [], 0;
    if |sizes| == 0 || |sizes| > CLAIMANTS { return None, from, used; }
    var p, remaining;
    p, remaining, from, used := TakeShares(sizes);
    SomeShare(p, sizes, from, used);
    if p.lower == [] { return None, from, used; }
    WidenDivides(p, sizes, from, used);
    if remaining > 0 { p := Widen(p, remaining); }
    r := Some(p);
  }

  // ---- hash_partitions_create ----

  /** Equal shares for the claimants with a name; the last one also gets what division left over. */
  method Create(claimants: seq<string>) returns (r: Option<Parts>)
    ensures r.None? <==> claimants == [] || |claimants| > CLAIMANTS
    ensures r.Some? ==> Adjoin(r.value) && Names(r.value, Named(claimants))
    ensures r.Some? && r.value.lower != [] ==> Covers(r.value)
    ensures r.Some? ==> forall k :: 0 <= k < |r.value.width| - 1 ==> r.value.width[k] == MAX / |claimants|
  {
    if |claimants| == 0 || |claimants| > CLAIMANTS { return None; }
    var interval := MAX / |claimants|;
    EachGetsSome(|claimants|);
    var p := EqualShares(claimants, interval);
    if |p.lower| > 0 {
      var sum := TotalWidth(p.width);
      WidthsUpTo(p, |p.width| - 1);
      assert p.width[..|p.width|] == p.width;
      ShareBound(|p.width|, |claimants|);
      WidenCovers(p, MAX - sum);
      p := Widen(p, MAX - sum);
    }
    r := Some(p);
  }

  ghost predicate Names(p: Parts, names: seq<string>) {
    |p.name| == |names| && forall k :: 0 <= k < |names| ==> p.name[k] == Clipped(names[k])
  }

  ghost predicate Equal(p: Parts, interval: nat) {
    Adjoin(p) && End(p) == |p.width| * interval && forall k :: 0 <= k < |p.width| ==> p.width[k] == interval
  }

  lemma EqualMore(p: Parts, interval: nat, name: string)
    requires Equal(p, interval) && interval > 0
    ensures Equal(Extend(p, End(p), interval, name), interval)
    ensures End(Extend(p, End(p), interval, name)) == End(p) + interval
  {
    ExtendAdjoins(p, interval, name);
    assert (|p.width| + 1) * interval == |p.width| * interval + interval;
  }

  /** One interval of the same width for every claimant with a name. */
  method EqualShares(claimants: seq<string>, interval: nat) returns (p: Parts)
    requires interval > 0
    ensures Equal(p, interval) && |p.width| <= |claimants| && Names(p, Named(claimants))
  {
    p := Parts([], [], []);
    var next, i := 0, 0;
    while i < |claimants|
      invariant i <= |claimants| && Equal(p, interval) && next == End(p) && |p.width| <= i
      invariant Names(p, Named(claimants[..i]))
    {
      assert claimants[..i + 1][..i] == claimants[..i];
      if |claimants[i]| != 0 {
        EqualMore(p, interval, claimants[i]);
        p := Extend(p, next, interval, claimants[i]);
        next := next + interval;
      }
      i := i + 1;
    }
    assert claimants[..i] == claimants;
  }

  function Named(claimants: seq<string>): seq<string> {
    if claimants == [] then []
    else
      var n := |claimants| - 1;
      Named(claimants[..n]) + (if |claimants[n]| != 0 then [claimants[n]] else [])
  }

  lemma EachGetsSome(n: nat)
    requires 0 < n <= CLAIMANTS
    ensures MAX / n >= 1
  {
    assert MAX == n * (MAX / n) + MAX % n;
  }

  lemma ShareBound(k: nat, n: nat)
    requires 0 < n && k <= n
    ensures k * (MAX / n) <= MAX
  {
    var q := MAX / n;
    assert (n - k) * q >= 0;
    assert n * q == k * q + (n - k) * q;
  }

  method TotalWidth(width: seq<nat>) returns (sum: nat)
    ensures sum == Sum(width)
  {
    sum := 0;
    var i := 0;
    while i < |width|
      invariant i <= |width| && sum == Sum(width[..i])
    {
      assert width[..i + 1][..i] == width[..i];
      sum := sum + width[i];
      i := i + 1;
    }
    assert width[..i] == width;
  }

  // ---- hash_partitions_get_claimant ----

  /** The interval a linear scan stops at: the last one that begins at or below the hash. */
  function Scan(p: Parts, hash: nat, k: nat): (r: nat)
    requires k < |p.lower|
    ensures r <= k
    decreases k
  {
    if k == 0 || hash >= p.lower[k] then k else Scan(p, hash, k - 1)
  }

  /** The hash is in interval `k`; the last one also has the topmost hash. */
  ghost predicate InPart(p: Parts, hash: nat, k: nat)
    requires |p.lower| == |p.width|
  {
    k < |p.lower| && p.lower[k] <= hash && (hash < p.lower[k] + p.width[k] || k == |p.lower| - 1)
  }

  lemma {:induction false} ScanStops(p: Parts, hash: nat, k: nat)
    requires k < |p.lower| && p.lower[0] == 0
    ensures var r := Scan(p, hash, k); p.lower[r] <= hash && forall j :: r < j <= k ==> hash < p.lower[j]
    decreases k
  {
    if k > 0 && hash < p.lower[k] { ScanStops(p, hash, k - 1); }
  }

  /** The scan stops in the one interval that holds the hash. */
  lemma ScanExact(p: Parts, hash: nat, j: nat)
    requires Covers(p) && j < |p.lower|
    ensures InPart(p, hash, j) <==> j == Scan(p, hash, |p.lower| - 1)
  {
    var n, r := |p.lower|, Scan(p, hash, |p.lower| - 1);
    assert BoundAt(p, 0);
    ScanStops(p, hash, n - 1);
    if r < n - 1 { assert BoundAt(p, r + 1); }
    if j < r { BoundsBefore(p, j, r); }
  }

  /** The binary search ends, finds a claimant whenever there is one, and agrees with the linear scan. */
  method GetClaimant(p: Parts, hash: nat) returns (r: Option<string>)
    requires |p.lower| == |p.name| && (p.lower != [] ==> Covers(p))
    ensures r.None? <==> p.lower == []
    ensures r.Some? ==> r.value == p.name[Scan(p, hash, |p.lower| - 1)]
  {
    var n := |p.lower|;
    if n == 0 { return None; }
    BoundsIncrease(p);
    if hash >= p.lower[n - 1] { return Some(p.name[n - 1]); }
    var left, right := 0, n - 1;
    while left <= right
      invariant 0 <= left <= right < n && p.lower[left] <= hash && hash < p.lower[n - 1]
      invariant right < n - 1 ==> hash < p.lower[right + 1]
      decreases right - left
    {
      var mid := left + (right - left) / 2;
      if hash >= p.lower[mid] {
        if mid == n - 1 || hash < p.lower[mid + 1] {
          ScanAt(p, hash, n - 1, mid);
          return Some(p.name[mid]);
        }
        left := mid + 1;
      } else {
        if mid == 0 { break; }
        right := mid - 1;
      }
    }
    assert false;
  }

  lemma {:induction false} ScanAt(p: Parts, hash: nat, k: nat, mid: nat)
    requires mid <= k < |p.lower| && p.lower[mid] <= hash
    requires forall j :: mid < j <= k ==> hash < p.lower[j]
    ensures Scan(p, hash, k) == mid
    decreases k
  {
    if k > mid { ScanAt(p, hash, k - 1, mid); }
  }
}
