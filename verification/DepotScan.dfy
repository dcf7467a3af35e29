/**
 * umem_depot_alloc's search for a magazine: the caller's own stripe, then every other stripe
 * of the same NUMA node, then every remote stripe, then the global list.
 */
module DepotScan {
  import opened Collections
  import opened Arithmetic
  import opened MagazineState

  type Lists = seq<seq<Mag>>

  /** Every magazine on the lists. */
  ghost function Stock(lists: Lists): multiset<Mag> {
    if lists == [] then multiset{} else multiset(lists[0]) + Stock(lists[1..])
  }

  /** Every round in them, all full. */
  ghost function AllRounds(lists: Lists): multiset<Addr> {
    if lists == [] then multiset{} else ListLive(lists[0]) + AllRounds(lists[1..])
  }

  lemma {:induction false} RoundsUpdate(lists: Lists, k: nat, l: seq<Mag>)
    requires k < |lists|
    ensures AllRounds(lists[k := l]) + ListLive(lists[k]) == AllRounds(lists) + ListLive(l)
  {
    if k == 0 {
      assert lists[0 := l][1..] == lists[1..];
    } else {
      var tail := lists[1..];
      assert lists[k := l][1..] == tail[k - 1 := l];
      RoundsUpdate(tail, k - 1, l);
      assert AllRounds(lists[k := l]) + ListLive(lists[k])
          == ListLive(lists[0]) + (AllRounds(tail[k - 1 := l]) + ListLive(tail[k - 1]));
    }
  }

  lemma {:induction false} ListLiveAdd(a: seq<Mag>, b: seq<Mag>)
    ensures ListLive(a + b) == ListLive(a) + ListLive(b)
  {
    if a == [] { assert a + b == b; } else { assert (a + b)[1..] == a[1..] + b; ListLiveAdd(a[1..], b); }
  }

  /** What left the lists is the magazine returned and the stale ones given up. */
  ghost predicate Conserves(lists: Lists, rest: Lists, got: Option<Mag>, stale: seq<Mag>) {
    && Stock(rest) + multiset(stale) + Held(got) == Stock(lists)
    && AllRounds(rest) + ListLive(stale) + (if got.Some? then multiset(got.value.slots) else multiset{})
       == AllRounds(lists)
  }

  lemma ConservesMore(lists: Lists, mid: Lists, rest: Lists, stale: seq<Mag>, more: seq<Mag>, got: Option<Mag>)
    requires Conserves(lists, mid, None, stale) && Conserves(mid, rest, got, more)
    ensures Conserves(lists, rest, got, stale + more)
  {
    ListLiveAdd(stale, more);
    assert multiset(stale + more) == multiset(stale) + multiset(more);
    Chain(Stock(lists), Stock(mid), Stock(rest), multiset(stale), multiset(more), Held(got));
    Chain(AllRounds(lists), AllRounds(mid), AllRounds(rest), ListLive(stale), ListLive(more),
          if got.Some? then multiset(got.value.slots) else multiset{});
  }

  lemma {:induction false} StockUpdate(lists: Lists, k: nat, l: seq<Mag>)
    requires k < |lists|
    ensures Stock(lists[k := l]) + multiset(lists[k]) == Stock(lists) + multiset(l)
  {
    if k == 0 {
      assert lists[0 := l][1..] == lists[1..];
    } else {
      var tail := lists[1..];
      assert lists[k := l][1..] == tail[k - 1 := l];
      StockUpdate(tail, k - 1, l);
      assert Stock(lists[k := l]) + multiset(lists[k])
          == multiset(lists[0]) + (Stock(tail[k - 1 := l]) + multiset(tail[k - 1]));
    }
  }

  /** One pop that keeps a magazine of the current size and gives up a stale one. */
  method Try(lists: Lists, k: nat, size: nat) returns (rest: Lists, got: Option<Mag>, stale: seq<Mag>)
    requires k < |lists|
    ensures |rest| == |lists| && (forall i :: 0 <= i < |lists| && i != k ==> rest[i] == lists[i])
    ensures got.Some? ==> |got.value.slots| == size
    ensures got.None? ==> Looked(lists, rest, size, k)
    ensures forall m :: m in stale ==> |m.slots| != size
    ensures Conserves(lists, rest, got, stale)
  {
    rest, got, stale := lists, None, [];
    if lists[k] != [] {
      var m := lists[k][0];
      rest := lists[k := lists[k][1..]];
      PopConserves(lists, k);
      if |m.slots| == size {
        got := Some(m);
      } else {
        stale := [m];
        assert ListLive([m]) == multiset(m.slots) + ListLive([m][1..]);
      }
    }
  }

  lemma PopConserves(lists: Lists, k: nat)
    requires k < |lists| && lists[k] != []
    ensures var rest := lists[k := lists[k][1..]];
            && Stock(rest) + multiset{lists[k][0]} == Stock(lists)
            && AllRounds(rest) + multiset(lists[k][0].slots) == AllRounds(lists)
  {
    var m, l, rest := lists[k][0], lists[k][1..], lists[k := lists[k][1..]];
    assert lists[k] == [m] + l;
    StockUpdate(lists, k, l);
    Cancel(Stock(rest) + multiset{m}, Stock(lists), multiset(l));
    RoundsUpdate(lists, k, l);
    Cancel(AllRounds(rest) + multiset(m.slots), AllRounds(lists), ListLive(l));
  }

  ghost function Held(got: Option<Mag>): multiset<Mag> { if got.Some? then multiset{got.value} else multiset{} }

  /** List `k` was tried without success: it was empty, or its first magazine was stale and is gone. */
  ghost predicate Looked(lists: Lists, rest: Lists, size: nat, k: nat)
    requires k < |lists| == |rest|
  {
    || (lists[k] == [] && rest[k] == [])
    || (lists[k] != [] && |lists[k][0].slots| != size && rest[k] == lists[k][1..])
  }

  /** The i-th stripe after the caller's. */
  function Other(cpu: nat, i: nat, ncpus: nat): (k: nat)
    requires ncpus > 0
    ensures k < ncpus
  {
    (cpu + i) % ncpus
  }

  /** The offset at which a scan comes to stripe `k`. */
  function Offset(cpu: nat, k: nat, ncpus: nat): nat
    requires cpu < ncpus && k < ncpus
  {
    if k >= cpu then k - cpu else k + ncpus - cpu
  }

  /** Every stripe but the caller's is at exactly one offset from 1 on. */
  lemma OffsetExact(cpu: nat, i: nat, k: nat, ncpus: nat)
    requires cpu < ncpus && i < ncpus && k < ncpus
    ensures Offset(cpu, k, ncpus) < ncpus && (Other(cpu, i, ncpus) == k <==> i == Offset(cpu, k, ncpus))
    ensures k != cpu <==> Offset(cpu, k, ncpus) > 0
  {
    if cpu + i < ncpus {
      DivUnique(cpu + i, ncpus, 0, cpu + i);
    } else {
      DivUnique(cpu + i, ncpus, 1, cpu + i - ncpus);
    }
  }

  /** Stripe `k` is one this pass tries: on the caller's node or not, and not locked by someone else. */
  predicate Wanted(k: nat, home: int, node: seq<nat>, near: bool, busy: set<nat>)
    requires k < |node|
  {
    (node[k] == home <==> near) && k !in busy
  }

  /** After offsets below `i`: the wanted stripes passed were tried in vain, the others are as before. */
  ghost predicate Passed(lists: Lists, rest: Lists, size: nat, cpu: nat, i: nat,
                         node: seq<nat>, near: bool, busy: set<nat>, k: nat)
  {
    && |rest| == |lists| > |node| > cpu
    && (k < |lists| ==>
          if k < |node| && 0 < Offset(cpu, k, |node|) < i && Wanted(k, node[cpu], node, near, busy)
          then Looked(lists, rest, size, k)
          else rest[k] == lists[k])
  }

  ghost predicate AllPassed(lists: Lists, rest: Lists, size: nat, cpu: nat, i: nat,
                            node: seq<nat>, near: bool, busy: set<nat>)
  {
    forall k :: Passed(lists, rest, size, cpu, i, node, near, busy, k)
  }

  /** One turn of the loop: try the stripe at offset `i` if this pass wants it. */
  method Turn(ghost lists: Lists, now: Lists, cpu: nat, i: nat, node: seq<nat>, near: bool, busy: set<nat>, size: nat)
    returns (rest: Lists, got: Option<Mag>, stale: seq<Mag>)
    requires cpu < |node| < |lists| == |now| && 0 < i < |node| && AllPassed(lists, now, size, cpu, i, node, near, busy)
    ensures |rest| == |lists| && Conserves(now, rest, got, stale)
    ensures got.Some? ==> |got.value.slots| == size
    ensures forall m :: m in stale ==> |m.slots| != size
    ensures got.None? ==> AllPassed(lists, rest, size, cpu, i + 1, node, near, busy)
  {
    var other := Other(cpu, i, |node|);
    rest, got, stale := now, None, [];
    if Wanted(other, node[cpu], node, near, busy) {
      rest, got, stale := Try(now, other, size);
    }
    if got.None? { Advance(lists, now, rest, size, cpu, i, i + 1, node, near, busy); }
  }

  /** One pass over the other stripes, never waiting for a lock. */
  method Pass(lists: Lists, cpu: nat, node: seq<nat>, near: bool, busy: set<nat>, size: nat)
    returns (rest: Lists, got: Option<Mag>, stale: seq<Mag>)
    requires cpu < |node| < |lists|
    ensures |rest| == |lists| && Conserves(lists, rest, got, stale)
    ensures got.Some? ==> |got.value.slots| == size
    ensures forall m :: m in stale ==> |m.slots| != size
    ensures got.None? ==> AllPassed(lists, rest, size, cpu, |node|, node, near, busy)
  {
    rest, got, stale := lists, None, [];
    var i: nat := 1;
    while i < |node|
      invariant 1 <= i <= |node| && got.None? && |rest| == |lists|
      invariant Conserves(lists, rest, None, stale) && forall m :: m in stale ==> |m.slots| != size
      invariant AllPassed(lists, rest, size, cpu, i, node, near, busy)
    {
      var more;
      ghost var mid := rest;
      rest, got, more := Turn(lists, rest, cpu, i, node, near, busy, size);
      ConservesMore(lists, mid, rest, stale, more, got);
      stale := stale + more;
      if got.Some? { return; }
      i := i + 1;
    }
  }

  lemma Advance(lists: Lists, before: Lists, rest: Lists, size: nat, cpu: nat, i: nat, next: nat,
                node: seq<nat>, near: bool, busy: set<nat>)
    requires cpu < |node| < |lists| == |before| == |rest| && 0 < i < |node| && next == i + 1
    requires AllPassed(lists, before, size, cpu, i, node, near, busy)
    requires var k := Other(cpu, i, |node|);
             && (forall x :: 0 <= x < |lists| && x != k ==> rest[x] == before[x])
             && (if Wanted(k, node[cpu], node, near, busy) then Looked(before, rest, size, k) else rest[k] == before[k])
    ensures AllPassed(lists, rest, size, cpu, next, node, near, busy)
  {
    forall k: nat ensures Passed(lists, rest, size, cpu, next, node, near, busy, k) {
      assert Passed(lists, before, size, cpu, i, node, near, busy, k);
      if k < |node| { OffsetExact(cpu, i, k, |node|); }
    }
  }

  /** List `k` could still be waiting with a usable magazine: only if someone else had it locked. */
  ghost predicate Exhausted(lists: Lists, rest: Lists, size: nat, cpu: nat, busy: set<nat>, k: nat) {
    k < |lists| == |rest| ==> Looked(lists, rest, size, k) || (k in busy && k != cpu && k < |lists| - 1)
  }

  /**
   * umem_depot_alloc: what it returns is a magazine of the current size taken off some list;
   * when it returns nothing, every list it could lock was empty or had a stale magazine first.
   * The last list is the global one.
   */
  method DepotAlloc(lists: Lists, cpu: nat, node: seq<nat>, busy: set<nat>, size: nat)
    returns (rest: Lists, got: Option<Mag>, stale: seq<Mag>)
    requires cpu < |node| && |lists| == |node| + 1
    ensures |rest| == |lists| && Conserves(lists, rest, got, stale)
    ensures got.Some? ==> |got.value.slots| == size
    ensures forall m :: m in stale ==> |m.slots| != size
    ensures got.None? ==> forall k :: Exhausted(lists, rest, size, cpu, busy, k)
  {
    var a, b, c, more;
    a, got, stale := Try(lists, cpu, size);
    rest := a;
    if got.Some? { return; }
    b, got, more := Pass(a, cpu, node, true, busy, size);
    ConservesMore(lists, a, b, stale, more, got);
    rest, stale := b, stale + more;
    if got.Some? { return; }
    c, got, more := Pass(b, cpu, node, false, busy, size);
    ConservesMore(lists, b, c, stale, more, got);
    rest, stale := c, stale + more;
    if got.Some? { return; }
    rest, got, more := Try(c, |node|, size);
    ConservesMore(lists, c, rest, stale, more, got);
    stale := stale + more;
    if got.None? {
      forall k ensures Exhausted(lists, rest, size, cpu, busy, k) {
        ScanComplete(lists, a, b, c, rest, size, cpu, node, busy, k);
      }
    }
  }

  lemma ScanComplete(lists: Lists, a: Lists, b: Lists, c: Lists, rest: Lists,
                     size: nat, cpu: nat, node: seq<nat>, busy: set<nat>, k: nat)
    requires cpu < |node| && |lists| == |node| + 1 == |a| == |b| == |c| == |rest|
    requires Looked(lists, a, size, cpu) && (forall i :: 0 <= i < |lists| && i != cpu ==> a[i] == lists[i])
    requires AllPassed(a, b, size, cpu, |node|, node, true, busy)
    requires AllPassed(b, c, size, cpu, |node|, node, false, busy)
    requires Looked(c, rest, size, |node|) && (forall i :: 0 <= i < |lists| && i != |node| ==> rest[i] == c[i])
    ensures Exhausted(lists, rest, size, cpu, busy, k)
  {
    assert Passed(a, b, size, cpu, |node|, node, true, busy, k);
    assert Passed(b, c, size, cpu, |node|, node, false, busy, k);
    if k < |node| { OffsetExact(cpu, 0, k, |node|); }
  }
}
