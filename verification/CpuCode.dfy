/**
 * The loops of umem_cache_alloc, umem_cache_free and the batch forms on one CPU's magazine
 * pair, run under its cc_lock, with the depot search they make.
 */
module CpuCode {
  import opened Collections
  import opened MagazineState
  import opened MagazineMoves
  import opened DepotScan
  import CpuSteps

  /** The pair, the two sets of depot lists, and the stale full magazines given to the slab layer. */
  datatype View = View(loaded: Pos, prev: Pos, magsize: nat, full: Lists, empty: Lists, gone: seq<Mag>)

  function PairOf(v: View): (h: Holder)
    ensures h.Pair?
  {
    Pair(v.loaded, v.prev, v.magsize, Unlocked)
  }

  /** Every buffer in the pair, on the full lists or drained to the slab layer. */
  ghost function Buffers(v: View): multiset<Addr> {
    PosLive(v.loaded) + PosLive(v.prev) + AllRounds(v.full) + ListLive(v.gone)
  }

  ghost predicate Ok(v: View, size: nat, ncpus: nat) {
    size >= 1 && PairOk(PairOf(v), size) && |v.full| == |v.empty| == ncpus + 1
  }

  // ---- what each turn of a loop does to the view ----

  function Reloaded(v: View, m: Mag, n: int): View { v.(prev := v.loaded, loaded := Pos(Some(m), n)) }

  /** umem_depot_free to the caller's own stripe. */
  function Pushed(lists: Lists, cpu: nat, p: Pos): Lists
    requires cpu < |lists|
  {
    if p.mag.Some? then lists[cpu := [p.mag.value] + lists[cpu]] else lists
  }

  function FullIn(v: View, cpu: nat, rest: Lists, m: Mag, stale: seq<Mag>): View
    requires cpu < |v.empty|
  {
    Reloaded(v.(full := rest, gone := v.gone + stale, empty := Pushed(v.empty, cpu, v.prev)), m, v.magsize)
  }

  function EmptyIn(v: View, cpu: nat, rest: Lists, m: Mag): View
    requires cpu < |v.full|
  {
    Reloaded(v.(empty := rest, full := Pushed(v.full, cpu, v.prev)), m, 0)
  }

  lemma TakeOne(v: View, size: nat, ncpus: nat)
    requires Ok(v, size, ncpus) && v.loaded.rounds > 0
    ensures v.loaded.mag.Some?
    ensures var (p, b) := PopPos(v.loaded);
            Ok(v.(loaded := p), size, ncpus) && Buffers(v) == Buffers(v.(loaded := p)) + multiset{b}
  {
    PopPosLive(v.loaded, v.magsize);
  }

  lemma PutOne(v: View, b: Addr, size: nat, ncpus: nat)
    requires Ok(v, size, ncpus) && HasRoom(v.loaded, v.magsize)
    ensures v.loaded.mag.Some?
    ensures var p := PushPos(v.loaded, b);
            Ok(v.(loaded := p), size, ncpus) && Buffers(v.(loaded := p)) == Buffers(v) + multiset{b}
  {
    PushPosLive(v.loaded, b, v.magsize);
  }

  lemma SwapPrev(v: View, size: nat, ncpus: nat)
    requires Ok(v, size, ncpus) && CpuSteps.SwapGuard(PairOf(v))
    ensures v.prev.mag.Some? && CpuSteps.ReloadAsserts(PairOf(v), v.prev.rounds)
    ensures var v' := Reloaded(v, v.prev.mag.value, v.prev.rounds);
            Ok(v', size, ncpus) && Buffers(v') == Buffers(v)
  {
  }

  lemma PushedRounds(lists: Lists, cpu: nat, p: Pos)
    requires cpu < |lists| && (p.mag.Some? ==> PosLive(p) == multiset(p.mag.value.slots))
    ensures AllRounds(Pushed(lists, cpu, p)) == AllRounds(lists) + PosLive(p)
  {
    if p.mag.Some? {
      var l := [p.mag.value] + lists[cpu];
      assert l[1..] == lists[cpu];
      RoundsUpdate(lists, cpu, l);
      Cancel(AllRounds(lists[cpu := l]), AllRounds(lists) + PosLive(p), ListLive(lists[cpu]));
    }
  }

  lemma FullInPair(v: View, cpu: nat, rest: Lists, m: Mag, stale: seq<Mag>, size: nat, ncpus: nat)
    requires Ok(v, size, ncpus) && cpu < ncpus && v.loaded.rounds <= 0 && v.prev.rounds <= 0 && v.magsize > 0
    requires |rest| == |v.full| && |m.slots| == size
    ensures CpuSteps.ReloadAsserts(PairOf(v), v.magsize) && Ok(FullIn(v, cpu, rest, m, stale), size, ncpus)
    ensures PosLive(v.loaded) == multiset{} == PosLive(v.prev)
    ensures PosLive(Pos(Some(m), v.magsize)) == multiset(m.slots)
  {
    WholeLive(m);
  }

  lemma FullInKeeps(v: View, cpu: nat, rest: Lists, m: Mag, stale: seq<Mag>, size: nat, ncpus: nat)
    requires Ok(v, size, ncpus) && cpu < ncpus && v.loaded.rounds <= 0 && v.prev.rounds <= 0 && v.magsize > 0
    requires |rest| == |v.full| && |m.slots| == size && Conserves(v.full, rest, Some(m), stale)
    ensures CpuSteps.ReloadAsserts(PairOf(v), v.magsize) && Ok(FullIn(v, cpu, rest, m, stale), size, ncpus)
    ensures Buffers(FullIn(v, cpu, rest, m, stale)) == Buffers(v)
  {
    FullInPair(v, cpu, rest, m, stale, size, ncpus);
    ListLiveAdd(v.gone, stale);
  }

  lemma EmptyInPair(v: View, cpu: nat, rest: Lists, m: Mag, size: nat, ncpus: nat)
    requires Ok(v, size, ncpus) && cpu < ncpus && v.magsize > 0
    requires !HasRoom(v.loaded, v.magsize) && v.prev.rounds != 0
    requires |rest| == |v.empty| && |m.slots| == size
    ensures CpuSteps.ReloadAsserts(PairOf(v), 0) && Ok(EmptyIn(v, cpu, rest, m), size, ncpus)
    ensures PosLive(Pos(Some(m), 0)) == multiset{}
    ensures v.prev.mag.Some? ==> PosLive(v.prev) == multiset(v.prev.mag.value.slots)
  {
    WholeLive(m);
    if v.prev.mag.Some? { WholeLive(v.prev.mag.value); }
  }

  lemma EmptyInKeeps(v: View, cpu: nat, rest: Lists, m: Mag, size: nat, ncpus: nat)
    requires Ok(v, size, ncpus) && cpu < ncpus && v.magsize > 0
    requires !HasRoom(v.loaded, v.magsize) && v.prev.rounds != 0
    requires |rest| == |v.empty| && |m.slots| == size
    ensures CpuSteps.ReloadAsserts(PairOf(v), 0) && Ok(EmptyIn(v, cpu, rest, m), size, ncpus)
    ensures Buffers(EmptyIn(v, cpu, rest, m)) == Buffers(v)
  {
    EmptyInPair(v, cpu, rest, m, size, ncpus);
    PushedRounds(v.full, cpu, v.prev);
  }

  /** Nothing was to be had from the full lists. */
  lemma NoneInKeeps(v: View, rest: Lists, stale: seq<Mag>, size: nat, ncpus: nat)
    requires Ok(v, size, ncpus) && |rest| == |v.full| && Conserves(v.full, rest, None, stale)
    ensures var v' := v.(full := rest, gone := v.gone + stale); Ok(v', size, ncpus) && Buffers(v') == Buffers(v)
  {
    ListLiveAdd(v.gone, stale);
  }

  // ---- the code ----

  /**
   * What happens while cc_lock is dropped for a new shell: the shell's number, if there was
   * memory for it; the pair, the depot and the magazine size the other threads have left when
   * the lock is retaken; and what they leave when it is dropped once more to free a shell of
   * the wrong size.
   */
  datatype Gap = Gap(shell: Option<nat>, now: View, size: nat, later: View, laterSize: nat)

  ghost predicate GapOk(g: Gap, ncpus: nat) { Ok(g.now, g.size, ncpus) && Ok(g.later, g.laterSize, ncpus) }

  /** The state in which the lock is last retaken. */
  function Retaken(g: Gap, size: nat): View { if g.shell.None? || g.now.magsize == size then g.now else g.later }

  /** `was` is the state in which the lock was last taken: the first, or what a gap left. */
  ghost predicate Since(gaps: seq<Gap>, used: nat, first: View, was: View) {
    && used <= |gaps| && (used == 0 ==> was == first)
    && (used > 0 ==> was == gaps[used - 1].now || was == gaps[used - 1].later)
  }

  function RetakenSize(g: Gap, size: nat): nat {
    if g.shell.None? || g.now.magsize == size then g.size else g.laterSize
  }

  class CpuCache {
    var loaded: Pos
    var prev: Pos
    var magsize: nat
    var full: Lists
    var empty: Lists
    var gone: seq<Mag>
    const cpu: nat
    const node: seq<nat>
    var size: nat

    ghost function Now(): View
      reads this
    {
      View(loaded, prev, magsize, full, empty, gone)
    }

    ghost predicate Valid()
      reads this
    {
      cpu < |node| && Ok(Now(), size, |node|)
    }

    /** A CPU with its magazine layer enabled and nothing loaded yet. */
    constructor (cpu: nat, node: seq<nat>, size: nat, full: Lists, empty: Lists)
      requires cpu < |node| && size >= 1 && |full| == |empty| == |node| + 1
      ensures Valid() && Now() == View(Pos(None, -1), Pos(None, -1), size, full, empty, [])
    {
      this.cpu, this.node, this.size := cpu, node, size;
      this.loaded, this.prev, this.magsize := Pos(None, -1), Pos(None, -1), size;
      this.full, this.empty, this.gone := full, empty, [];
    }

    method Reload(m: Mag, rounds: int)
      requires CpuSteps.ReloadAsserts(PairOf(Now()), rounds)
      modifies this`loaded, this`prev
      ensures Now() == Reloaded(old(Now()), m, rounds)
    {
      prev := loaded;
      loaded := Pos(Some(m), rounds);
    }

    /** A full magazine from the depot is loaded and the empty previous one goes there. */
    method LoadFull(rest: Lists, m: Mag, stale: seq<Mag>)
      requires cpu < |empty| && CpuSteps.ReloadAsserts(PairOf(Now()), magsize)
      modifies this`loaded, this`prev, this`full, this`empty, this`gone
      ensures Now() == FullIn(old(Now()), cpu, rest, m, stale)
    {
      full, gone := rest, gone + stale;
      empty := Pushed(empty, cpu, prev);
      Reload(m, magsize);
    }

    method LoadNone(rest: Lists, stale: seq<Mag>)
      modifies this`full, this`gone
      ensures Now() == old(Now()).(full := rest, gone := old(gone) + stale)
    {
      full, gone := rest, gone + stale;
    }

    /** An empty magazine from the depot is loaded and the full previous one goes there. */
    method LoadEmpty(rest: Lists, m: Mag)
      requires cpu < |full| && CpuSteps.ReloadAsserts(PairOf(Now()), 0)
      modifies this`loaded, this`prev, this`full, this`empty
      ensures Now() == EmptyIn(old(Now()), cpu, rest, m)
    {
      empty := rest;
      full := Pushed(full, cpu, prev);
      Reload(m, 0);
    }

    /** Bring in a full magazine: the previous one, or one from the depot.  False when there is none. */
    method RefillPair(busy: set<nat>) returns (ok: bool)
      requires Valid() && loaded.rounds <= 0
      modifies this`loaded, this`prev, this`full, this`empty, this`gone
      ensures Valid() && Buffers(Now()) == old(Buffers(Now())) && magsize == old(magsize)
      ensures ok ==> loaded.rounds > 0
      ensures !ok ==> loaded.rounds <= 0 && prev.rounds <= 0
      ensures !ok && magsize > 0 ==> forall k :: Exhausted(old(full), full, size, cpu, busy, k)
    {
      if prev.rounds > 0 {
        SwapPrev(Now(), size, |node|);
        Reload(prev.mag.value, prev.rounds);
        return true;
      }
      if magsize == 0 { return false; }
      var rest, got, stale := DepotAlloc(full, cpu, node, busy, size);
      if got.None? {
        NoneInKeeps(Now(), rest, stale, size, |node|);
        LoadNone(rest, stale);
        return false;
      }
      FullInKeeps(Now(), cpu, rest, got.value, stale, size, |node|);
      LoadFull(rest, got.value, stale);
      ok := true;
    }

    /** _umem_cache_alloc's loop; None sends the caller to the slab layer. */
    method Alloc(busy: set<nat>) returns (b: Option<Addr>)
      requires Valid()
      modifies this
      ensures Valid()
      ensures old(Buffers(Now())) == Buffers(Now()) + (if b.Some? then multiset{b.value} else multiset{})
      ensures b.None? ==> loaded.rounds <= 0 && prev.rounds <= 0
      ensures b.None? && magsize > 0 ==> forall k :: Exhausted(old(full), full, size, cpu, busy, k)
    {
      if loaded.rounds <= 0 {
        var ok := RefillPair(busy);
        if !ok { return None; }
      }
      TakeOne(Now(), size, |node|);
      var (p, buf) := PopPos(loaded);
      loaded := p;
      b := Some(buf);
    }

    /** umem_cache_alloc_batch's magazine part: what it hands out comes out of the stock, in one hold of the lock. */
    method AllocBatch(count: nat, busy: set<nat>) returns (bufs: seq<Addr>)
      requires Valid()
      modifies this
      ensures Valid() && |bufs| <= count && old(Buffers(Now())) == Buffers(Now()) + multiset(bufs)
      ensures |bufs| < count ==> loaded.rounds <= 0 && prev.rounds <= 0
    {
      bufs := [];
      while |bufs| < count
        invariant Valid() && |bufs| <= count && old(Buffers(Now())) == Buffers(Now()) + multiset(bufs)
        decreases count - |bufs|, loaded.rounds <= 0
      {
        if loaded.rounds > 0 {
          TakeOne(Now(), size, |node|);
          var (p, buf) := PopPos(loaded);
          loaded := p;
          bufs := bufs + [buf];
        } else {
          var ok := RefillPair(busy);
          if !ok { return; }
        }
      }
    }

    /** Bring in an empty magazine: the previous one, or one from the depot.  False when there is none. */
    method EmptyPair(busy: set<nat>) returns (ok: bool)
      requires Valid() && !HasRoom(loaded, magsize)
      modifies this`loaded, this`prev, this`full, this`empty
      ensures Valid() && Buffers(Now()) == old(Buffers(Now())) && gone == old(gone) && magsize == old(magsize)
      ensures ok ==> HasRoom(loaded, magsize)
      ensures !ok && magsize > 0 ==> forall k :: Exhausted(old(empty), empty, size, cpu, busy, k)
    {
      if prev.rounds == 0 {
        SwapPrev(Now(), size, |node|);
        Reload(prev.mag.value, prev.rounds);
        return true;
      }
      if magsize == 0 { return false; }
      var rest, got, stale := DepotAlloc(empty, cpu, node, busy, size);
      if got.None? {
        empty := rest;
        return false;
      }
      EmptyInKeeps(Now(), cpu, rest, got.value, size, |node|);
      LoadEmpty(rest, got.value);
      ok := true;
    }

    /** The push of _umem_cache_free. */
    method PushLoaded(b: Addr)
      requires Valid() && HasRoom(loaded, magsize)
      modifies this`loaded
      ensures Valid() && Buffers(Now()) == old(Buffers(Now())) + multiset{b}
      ensures loaded.mag.Some? && 0 < loaded.rounds <= |loaded.mag.value.slots|
      ensures loaded.mag.value.slots[loaded.rounds - 1] == b
    {
      PutOne(Now(), b, size, |node|);
      loaded := PushPos(loaded, b);
    }

    method Adopt(v: View, n: nat)
      modifies this
      ensures Now() == v && size == n
    {
      loaded, prev, magsize := v.loaded, v.prev, v.magsize;
      full, empty, gone, size := v.full, v.empty, v.gone, n;
    }

    /** The lock dropped and retaken for a shell; true when the loop is to try again. */
    method TakeShell(g: Gap) returns (again: bool)
      requires Valid() && GapOk(g, |node|)
      modifies this
      ensures Valid() && again == g.shell.Some? && size == RetakenSize(g, old(size))
      ensures Buffers(Now()) == Buffers(Retaken(g, old(size)))
      ensures magsize == Retaken(g, old(size)).magsize
    {
      var want := size;
      Adopt(g.now, g.size);
      again := g.shell.Some?;
      if again {
        if magsize != want {
          Adopt(g.later, g.laterSize);
        } else {
          empty := empty[cpu := [Blank(g.shell.value, want)] + empty[cpu]];
        }
      }
    }

    /**
     * _umem_cache_free's loop, whatever the other threads do in the gaps; no memory for a shell
     * is found after the last.  The buffer is added to what the pair and the depot held when the
     * lock was last retaken, or, when that is refused, goes to the slab layer and nothing is added.
     */
    method Free(b: Addr, busy: set<nat>, gaps: seq<Gap>) returns (ok: bool, used: nat, ghost was: View)
      requires Valid() && forall g :: g in gaps ==> GapOk(g, |node|)
      modifies this
      ensures Valid() && Since(gaps, used, old(Now()), was)
      ensures Buffers(Now()) == Buffers(was) + (if ok then multiset{b} else multiset{})
      ensures !ok ==> magsize == 0 || used == |gaps| || (used > 0 && gaps[used - 1].shell.None?)
    {
      used, was := 0, Now();
      ghost var first := Now();
      while !HasRoom(loaded, magsize)
        invariant Valid() && Since(gaps, used, first, was) && Buffers(Now()) == Buffers(was)
        decreases |gaps| - used, !HasRoom(loaded, magsize)
      {
        ok := MakeRoom(busy);
        if !ok {
          if magsize == 0 || used == |gaps| { return; }
          was := Retaken(gaps[used], size);
          ok := TakeShell(gaps[used]);
          used := used + 1;
          if !ok { return; }
        }
      }
      PushLoaded(b);
      ok := true;
    }

    method MakeRoom(busy: set<nat>) returns (ok: bool)
      requires Valid() && !HasRoom(loaded, magsize)
      modifies this
      ensures Valid() && Buffers(Now()) == old(Buffers(Now())) && size == old(size)
      ensures ok ==> HasRoom(loaded, magsize)
    {
      ok := EmptyPair(busy);
    }
  }
}
