/** The slab layer updated in place, each method one hold of cache_lock. */
module SlabCacheCode {
  import opened Collections
  import opened SlabLayer
  import opened SlabInvariants
  import AllocatedHash

  class SlabCache {
    const cfg: Config
    var slabs: map<SlabId, Slab>
    var order: seq<SlabId>
    var freelist: nat
    var buftotal: int
    var table: AllocatedHash.Table
    var pass: Option<seq<SlabId>>

    function View(): State
      reads this
    {
      State(cfg, slabs, order, freelist, buftotal, table, pass)
    }

    ghost predicate Valid()
      reads this
    {
      Inv(View())
    }

    /** umem_cache_create's empty slab layer, with UMEM_HASH_INITIAL buckets. */
    constructor (cfg: Config)
      requires ConfigOk(cfg) && cfg.unit > 0
      ensures Valid() && this.cfg == cfg && Init(View())
    {
      this.cfg := cfg;
      slabs, order, freelist, buftotal, pass := map[], [], 0, 0, None;
      table := seq(64, _ => []);
      new;
      InitHolds(View());
    }

    /** The search part of umem_slab_alloc: past slabs being reclaimed, or to the end. */
    method FindUsable() returns (j: nat)
      requires Linked(order, slabs) && freelist <= |order|
      ensures j == Target(View())
    {
      if freelist == |order| || slabs[order[freelist]].free == [] {
        return |order|;
      }
      j := freelist;
      if slabs[order[j]].state.Reclaiming? {
        j := j + 1;
        while j < |order| && (slabs[order[j]].state.Reclaiming? || slabs[order[j]].free == [])
          invariant freelist < j <= |order|
          invariant UsableFrom(View(), freelist + 1) == UsableFrom(View(), j)
        {
          j := j + 1;
        }
      }
    }

    /** The locked part of umem_slab_alloc; None sends the caller to umem_slab_create. */
    method Alloc() returns (r: Option<Addr>)
      requires Valid()
      modifies this
      ensures Valid()
      ensures r.None? <==> Target(old(View())) == |old(order)|
      ensures r.None? ==> View() == old(View())
      ensures r.Some? ==> (View(), r.value) == Take(old(View()), Target(old(View())))
      ensures r.Some? ==> r.value !in Outstanding(old(View()))
      ensures r.Some? ==> Outstanding(View()) == Outstanding(old(View())) + {r.value}
    {
      var j := FindUsable();
      if j == |order| {
        return None;
      }
      AllocKeeps(View());
      var buf := TakeAt(j);
      r := Some(buf);
    }

    /** Reactivate the slab at `j` if it was idle, and unhook its first free buffer. */
    method TakeAt(j: nat) returns (buf: Addr)
      requires j < |order| && order[j] in slabs && slabs[order[j]].free != []
      modifies this
      ensures (View(), buf) == Take(old(View()), j)
    {
      var id := order[j];
      var sp := slabs[id];
      if !sp.state.Active? {
        sp := sp.(state := Active, idle := 0);
      }
      sp := sp.(refcnt := sp.refcnt + 1);
      buf := sp.free[0];
      sp := sp.(free := sp.free[1..]);
      if sp.free == [] {
        freelist := j + 1;
      }
      slabs := slabs[id := sp];
      if cfg.hashed && |table| > 0 && cfg.unit > 0 {
        table := AllocatedHash.Insert(table, cfg.unit, AllocatedHash.Bufctl(buf, id));
      }
    }

    method LinkIn(id: SlabId)
      requires id in slabs && freelist <= |order|
      modifies this
      ensures View() == Link(old(View()), id)
    {
      buftotal := buftotal + |slabs[id].chunks|;
      order := InsertAt(order, freelist, id);
    }

    /** umem_slab_alloc once the lock is retaken with a slab of its own to link. */
    method LinkAndTake(id: SlabId) returns (buf: Addr)
      requires Valid() && id in slabs && id !in order && Created(slabs[id])
      modifies this
      ensures Valid() && LinkStep(old(View()), View(), id)
      ensures buf !in Outstanding(old(View()))
      ensures Outstanding(View()) == Outstanding(old(View())) + {buf}
    {
      LinkTakeKeeps(View(), id);
      LinkIn(id);
      buf := TakeAt(freelist);
    }

    /** umem_slab_free: find the slab, requeue a full one, push the buffer, retire an emptied one. */
    method FreeIn(a: Addr, retain: bool)
      requires cfg.slabsize > 0 && Linked(order, slabs) && Parked(order, freelist, slabs)
      modifies this
      ensures View() == SlabLayer.Free(old(View()), a, retain)
    {
      var owner := SlabOf(View(), a);
      if owner.None? {
        return;
      }
      var id := owner.value;
      PutIn(id, a, retain);
      if slabs[id].refcnt == 0 && !retain {
        assert id in order by { assert old(slabs[id].free == []) ==> order[freelist] == id; }
        UnlinkAt(IndexOf(order, id));
      }
    }

    method PutIn(id: SlabId, a: Addr, retain: bool)
      requires Linked(order, slabs) && Parked(order, freelist, slabs) && id in order
      modifies this
      ensures View() == Put(old(View()), id, a, retain)
    {
      if cfg.hashed && |table| > 0 && cfg.unit > 0 {
        table := AllocatedHash.Remove(table, cfg.unit, a);
      }
      var sp := slabs[id];
      if sp.free == [] {
        var k := IndexOf(order, id);
        order := InsertAt(RemoveAt(order, k), freelist - 1, id);
        freelist := freelist - 1;
      }
      sp := sp.(free := [a] + sp.free, refcnt := sp.refcnt - 1);
      if sp.refcnt == 0 && retain {
        sp := sp.(state := Dirty, idle := 0, emptied := 0);
      }
      slabs := slabs[id := sp];
    }

    /** umem_slab_free; `retain` is umem_reclaim_enabled. */
    method Free(a: Addr, retain: bool)
      requires Valid() && MayFree(View(), a)
      modifies this
      ensures Valid() && View() == SlabLayer.Free(old(View()), a, retain)
      ensures Outstanding(View()) == Outstanding(old(View())) - {a}
      ensures a !in Outstanding(old(View())) ==> View() == old(View())
    {
      FreeKeeps(View(), a, retain);
      FreeIn(a, retain);
    }

    method UnlinkAt(k: nat)
      requires k < |order| && order[k] in slabs
      modifies `order, `freelist, `buftotal
      ensures View() == Unlink(old(View()), k)
    {
      buftotal := buftotal - |slabs[order[k]].chunks|;
      order := RemoveAt(order, k);
      if k < freelist {
        freelist := freelist - 1;
      }
    }

    /** One slab of the reclaim walk: age it, and unlink it when its time has come. */
    method VisitAt(k: nat) returns (collect: bool)
      requires k < |order| && order[k] in slabs
      modifies this
      ensures View() == Visit(old(View()), k)
      ensures collect <==> Collected(old(View()), old(order[k]))
    {
      var id := order[k];
      var sp := slabs[id];
      collect := false;
      if sp.refcnt == 0 && sp.state.Dirty? {
        sp := sp.(idle := (sp.idle + cfg.interval) % U32, emptied := sp.emptied + cfg.interval);
        if sp.idle >= cfg.delay {
          sp := sp.(state := Reclaiming);
          collect := true;
        }
        slabs := slabs[id := sp];
      } else if sp.refcnt == 0 && sp.state.Clean? {
        sp := sp.(idle := (sp.idle + cfg.interval) % U32, emptied := sp.emptied + cfg.interval);
        slabs := slabs[id := sp];
        if sp.idle >= (2 * cfg.delay) % U32 {
          UnlinkAt(k);
        }
      } else {
        assert slabs[id := sp] == slabs;
      }
    }

    /** The walk of umem_cache_reclaim_pages, from the tail of the list to its head. */
    method WalkIn() returns (l: seq<SlabId>)
      requires Linked(order, slabs) && freelist <= |order| && buftotal == Tally(order, slabs)
      modifies this
      ensures View() == Walk(old(View()), 0)
      ensures l == Filter(old(order), Collects(old(View())))
    {
      ghost var s := View();
      var i: nat := |order|;
      l := [];
      WalkStart(s);
      while i > 0
        invariant i <= |s.order| && View() == Walk(s, i)
        invariant l == Filter(s.order[i..], Collects(s))
      {
        WalkStep(s, i);
        WalkList(s, i);
        i := i - 1;
        var id := order[i];
        var collect := VisitAt(i);
        if collect {
          l := [id] + l;
        }
      }
      assert i == 0 && s.order[i..] == s.order;
    }

    /** umem_cache_reclaim_pages up to its release of cache_lock. */
    method ReclaimBegin()
      requires Valid() && pass.None?
      modifies this
      ensures Valid() && pass.Some? && Collect(old(View()), View(), pass.value)
      ensures Outstanding(View()) == Outstanding(old(View()))
    {
      ghost var s := View();
      var l := WalkIn();
      pass := Some(l);
      WalkIsCollect(s, View(), l);
      CollectKeeps(s, View(), l);
    }

    method PublishIn()
      requires pass.Some? && NoDup(pass.value)
      requires forall id :: id in pass.value ==>
          id in slabs && slabs[id].state.Reclaiming? && slabs[id].refcnt == 0
      modifies `slabs, `pass
      ensures View() == Publish(old(View()))
    {
      ghost var s := View();
      var l := pass.value;
      var k := 0;
      while k < |l|
        invariant k <= |l| && pass == s.pass && slabs.Keys == s.slabs.Keys
        invariant forall id {:trigger slabs[id]} :: id in s.slabs ==>
            slabs[id] == if id in l[..k] then s.slabs[id].(state := Clean) else s.slabs[id]
      {
        var id := l[k];
        assert id in l && id !in l[..k];
        assert slabs[id].state.Reclaiming? && slabs[id].refcnt == 0;
        slabs := slabs[id := slabs[id].(state := Clean)];
        assert l[..k + 1] == l[..k] + [id];
        k := k + 1;
      }
      pass := None;
      assert l[..k] == l;
      assert slabs == Publish(s).slabs;
    }

    /** The retake of cache_lock: both assertions of the source hold for every slab collected. */
    method ReclaimEnd()
      requires Valid() && pass.Some?
      modifies this
      ensures Valid() && View() == Publish(old(View()))
      ensures Outstanding(View()) == Outstanding(old(View()))
    {
      PublishKeeps(View());
      PublishIn();
    }

    /** One slab of the drain: left where it is, or unlinked; the next position. */
    method DrainAt(k: nat) returns (next: nat)
      requires k < |order| && order[k] in slabs
      modifies `order, `freelist, `buftotal
      ensures (View(), next) == DrainOne(old(View()), k)
    {
      next := k;
      if slabs[order[k]].refcnt != 0 {
        next := k + 1;
      } else {
        UnlinkAt(k);
      }
    }

    /** The walk of umem_cache_drain_slabs, from the head of the list; no slab it meets is RECLAIMING. */
    method DrainIn() returns (gone: seq<SlabId>, outstanding: int)
      requires Walkable(View()) && forall id :: id in order ==> !slabs[id].state.Reclaiming?
      modifies `order, `freelist, `buftotal
      ensures View() == Drain(old(View()))
      ensures Gone(old(View()), old(order), gone) && outstanding == RefSum(old(order), slabs)
    {
      ghost var s := View();
      var k := 0;
      ghost var j := 0;
      gone, outstanding := [], 0;
      while k < |order|
        invariant j <= |s.order| && (View(), k) == DrainWalk(s, j)
        invariant Gone(s, s.order[..j], gone) && outstanding == RefSum(s.order[..j], s.slabs)
        decreases |s.order| - j
      {
        DrainPlace(s, j);
        SeenNext(s, j, gone);
        var id := order[k];
        assert !slabs[id].state.Reclaiming?;
        if slabs[id].refcnt == 0 {
          gone := [id] + gone;
        }
        outstanding := outstanding + slabs[id].refcnt;
        k := DrainAt(k);
        j := j + 1;
      }
      DrainPlace(s, j);
      DrainIsWalk(s);
      assert s.order[..j] == s.order;
    }

    /**
     * umem_cache_drain_slabs: every linked slab with nothing out is unlinked and given back,
     * and the number of buffers still out is reported.
     */
    method DrainSlabs() returns (outstanding: int)
      requires Valid() && pass.None?
      modifies this
      ensures Valid() && outstanding == |Outstanding(old(View()))|
      ensures Outstanding(View()) == Outstanding(old(View()))
      ensures forall id :: id in order <==> id in old(order) && Used(old(slabs)[id]) != {}
      ensures forall id :: id in slabs <==> id in old(slabs) && (id in old(order) ==> Used(old(slabs)[id]) != {})
      ensures forall id :: id in slabs ==> slabs[id] == old(slabs)[id]
      ensures outstanding == 0 ==> order == [] && buftotal == 0
    {
      ghost var s := View();
      DrainKeeps(s);
      ReportExact(s);
      var gone: seq<SlabId>;
      gone, outstanding := DrainIn();
      assert forall id :: id in gone <==> id in s.order && Used(s.slabs[id]) == {} by {
        forall id | id in s.order ensures id in gone <==> Used(s.slabs[id]) == {} {
          assert GoneAt(s, s.order, gone, id);
          DrainMembers(s, id);
        }
        forall id | id in gone ensures id in s.order { assert GoneAt(s, s.order, gone, id); }
      }
      if outstanding == 0 { DrainEmpties(s); }
      DestroyAll(gone);
    }

    /** The second loop of the drain: umem_slab_destroy on each slab unlinked. */
    method DestroyAll(gone: seq<SlabId>)
      requires Valid() && NoDup(gone) && forall id :: id in gone ==> id in slabs && id !in order
      modifies `slabs
      ensures Valid() && Outstanding(View()) == Outstanding(old(View()))
      ensures slabs == Without(old(slabs), gone)
    {
      ghost var m, out := slabs, Outstanding(View());
      var i := 0;
      WithoutNone(m, gone);
      while i < |gone|
        invariant i <= |gone| && Valid() && Outstanding(View()) == out
        invariant slabs == Without(m, gone[..i])
      {
        var id := gone[i];
        assert id in gone;
        WithoutNext(m, gone, i);
        DestroyKeeps(View(), id);
        slabs := slabs - {id};
        i := i + 1;
      }
      assert gone[..i] == gone;
    }
  }

  // ---- the drain walk ----

  ghost function Without(m: map<SlabId, Slab>, ids: seq<SlabId>): map<SlabId, Slab> {
    map id | id in m && id !in ids :: m[id]
  }

  lemma WithoutNone(m: map<SlabId, Slab>, ids: seq<SlabId>)
    ensures Without(m, ids[..0]) == m
  {
  }

  lemma WithoutNext(m: map<SlabId, Slab>, ids: seq<SlabId>, i: nat)
    requires NoDup(ids) && i < |ids| && ids[i] in m
    ensures ids[i] in Without(m, ids[..i])
    ensures Without(m, ids[..i + 1]) == Without(m, ids[..i]) - {ids[i]}
  {
    assert ids[..i + 1] == ids[..i] + [ids[i]];
  }

  /** One turn: the slab at `k` is passed over, or unlinked. */
  function DrainOne(w: State, k: nat): (State, nat) {
    if k >= |w.order| || w.order[k] !in w.slabs then (w, k)
    else if w.slabs[w.order[k]].refcnt != 0 then (w, k + 1)
    else (Unlink(w, k), k)
  }

  /** The state and the position of the walk after `j` turns. */
  ghost function DrainWalk(s: State, j: nat): (State, nat) {
    if j == 0 then (s, 0)
    else
      var (w, k) := DrainWalk(s, j - 1);
      DrainOne(w, k)
  }

  predicate Busy(s: State, id: SlabId) { id in s.slabs && s.slabs[id].refcnt != 0 }

  /** Those of the first `j` slabs that the drain leaves linked. */
  function Kept(s: State, j: nat): seq<SlabId>
    requires j <= |s.order|
  {
    if j == 0 then [] else if Busy(s, s.order[j - 1]) then Kept(s, j - 1) + [s.order[j - 1]] else Kept(s, j - 1)
  }

  lemma {:induction false} KeptIsFilter(s: State, j: nat)
    requires j <= |s.order|
    ensures Kept(s, j) == Filter(s.order[..j], InUse(s))
  {
    if j > 0 {
      var x := s.order[j - 1];
      KeptIsFilter(s, j - 1);
      assert s.order[..j] == s.order[..j - 1] + [x];
      FilterSplit(s.order[..j - 1], [x], InUse(s));
      FilterCons(x, [], InUse(s));
      assert [x] + [] == [x];
    }
  }

  lemma {:induction false} KeptBefore(s: State, j: nat, id: SlabId)
    requires j <= |s.order| && id in Kept(s, j)
    ensures id in s.order[..j]
  {
    if j > 0 {
      assert s.order[..j] == s.order[..j - 1] + [s.order[j - 1]];
      if id in Kept(s, j - 1) { KeptBefore(s, j - 1, id); }
    }
  }

  lemma {:induction false} KeptGrows(s: State, i: nat, j: nat)
    requires i <= j <= |s.order|
    ensures |Kept(s, i)| <= |Kept(s, j)|
  {
    if i < j { KeptGrows(s, i, j - 1); }
  }

  ghost predicate GoneAt(s: State, ids: seq<SlabId>, gone: seq<SlabId>, id: SlabId) {
    id in gone <==> id in ids && id in s.slabs && s.slabs[id].refcnt == 0
  }

  /** `gone` has the slabs of `ids` with nothing out, each once. */
  ghost predicate Gone(s: State, ids: seq<SlabId>, gone: seq<SlabId>) {
    NoDup(gone) && forall id :: GoneAt(s, ids, gone, id)
  }

  lemma SeenNext(s: State, j: nat, gone: seq<SlabId>)
    requires Linked(s.order, s.slabs) && j < |s.order| && Gone(s, s.order[..j], gone)
    ensures var id := s.order[j];
            && id in s.slabs
            && Gone(s, s.order[..j + 1], if s.slabs[id].refcnt == 0 then [id] + gone else gone)
            && RefSum(s.order[..j + 1], s.slabs) == RefSum(s.order[..j], s.slabs) + s.slabs[id].refcnt
  {
    var id, p := s.order[j], s.order[..j];
    assert s.order[..j + 1] == p + [id];
    RefSumLast(p, id, s.slabs);
    assert id !in p;
    assert GoneAt(s, p, gone, id);
    var gone' := if s.slabs[id].refcnt == 0 then [id] + gone else gone;
    forall x ensures GoneAt(s, p + [id], gone', x) { assert GoneAt(s, p, gone, x); }
  }

  function DrainedOrder(s: State, j: nat): seq<SlabId>
    requires j <= |s.order|
  {
    Kept(s, j) + s.order[j..]
  }

  function DrainedFreelist(s: State, j: nat): nat
    requires s.freelist <= |s.order| && j <= |s.order|
  {
    if j <= s.freelist then |Kept(s, j)| + (s.freelist - j) else |Kept(s, s.freelist)|
  }

  /** `w` and `k` are the state and the position when the first `j` slabs have been seen. */
  ghost predicate Drained(s: State, j: nat, w: State, k: nat)
    requires s.freelist <= |s.order| && j <= |s.order|
  {
    && w == s.(order := w.order, freelist := w.freelist, buftotal := w.buftotal)
    && w.order == DrainedOrder(s, j) && w.freelist == DrainedFreelist(s, j)
    && w.buftotal == Tally(DrainedOrder(s, j), s.slabs) && k == |Kept(s, j)|
  }

  lemma DrainStart(s: State)
    requires s.freelist <= |s.order| && s.buftotal == Tally(s.order, s.slabs)
    ensures Drained(s, 0, s, 0)
  {
    assert DrainedOrder(s, 0) == s.order;
  }

  lemma DrainEnd(s: State, w: State, k: nat)
    requires s.freelist <= |s.order| && Drained(s, |s.order|, w, k)
    ensures w == Drain(s)
  {
    KeptIsFilter(s, |s.order|);
    KeptIsFilter(s, s.freelist);
    assert s.order[..|s.order|] == s.order;
    assert DrainedOrder(s, |s.order|) == Kept(s, |s.order|);
  }

  ghost predicate Walkable(s: State) {
    Linked(s.order, s.slabs) && s.freelist <= |s.order| && s.buftotal == Tally(s.order, s.slabs)
  }

  lemma {:induction false} DrainWalked(s: State, j: nat)
    requires Walkable(s) && j <= |s.order|
    ensures Drained(s, j, DrainWalk(s, j).0, DrainWalk(s, j).1)
  {
    if j == 0 {
      DrainStart(s);
    } else {
      DrainWalked(s, j - 1);
      DrainStep(s, j - 1, DrainWalk(s, j - 1).0, DrainWalk(s, j - 1).1);
    }
  }

  lemma DrainPlace(s: State, j: nat)
    requires Walkable(s) && j <= |s.order|
    ensures var (w, k) := DrainWalk(s, j);
            && w.slabs == s.slabs && k <= |w.order| && |w.order| - k == |s.order| - j
            && (j < |s.order| ==> w.order[k] == s.order[j])
  {
    DrainWalked(s, j);
    if j < |s.order| { DrainOrder(s, j); }
  }

  /** The walk, slab by slab, does what the one-step description of the drain says. */
  lemma DrainIsWalk(s: State)
    requires Walkable(s)
    ensures DrainWalk(s, |s.order|).0 == Drain(s)
  {
    DrainWalked(s, |s.order|);
    DrainEnd(s, DrainWalk(s, |s.order|).0, DrainWalk(s, |s.order|).1);
  }

  lemma DrainOrder(s: State, j: nat)
    requires j < |s.order|
    ensures |Kept(s, j)| < |DrainedOrder(s, j)| && DrainedOrder(s, j)[|Kept(s, j)|] == s.order[j]
    ensures DrainedOrder(s, j + 1)
         == if Busy(s, s.order[j]) then DrainedOrder(s, j) else RemoveAt(DrainedOrder(s, j), |Kept(s, j)|)
  {
    var p, x, q := Kept(s, j), s.order[j], s.order[j + 1..];
    assert s.order[j..] == [x] + q;
    assert DrainedOrder(s, j) == p + [x] + q;
    RemoveMiddle(p, x, q);
  }

  lemma DrainTally(s: State, j: nat)
    requires Linked(s.order, s.slabs) && j < |s.order| && !Busy(s, s.order[j])
    ensures Tally(DrainedOrder(s, j), s.slabs)
         == Tally(DrainedOrder(s, j + 1), s.slabs) + |s.slabs[s.order[j]].chunks|
  {
    var p, x, q := Kept(s, j), s.order[j], s.order[j + 1..];
    assert s.order[j..] == [x] + q;
    assert DrainedOrder(s, j + 1) == p + q && DrainedOrder(s, j) == p + [x] + q;
    assert x !in q;
    if x in p { KeptBefore(s, j, x); }
    TallyAdds(p + q, p + [x] + q, x, s.slabs);
  }

  /** One slab of the walk: passed over, or unlinked with its chunks subtracted. */
  lemma DrainStep(s: State, j: nat, w: State, k: nat)
    requires Walkable(s) && j < |s.order| && Drained(s, j, w, k)
    ensures Drained(s, j + 1, DrainOne(w, k).0, DrainOne(w, k).1)
  {
    var id := s.order[j];
    assert id in s.slabs;
    DrainOrder(s, j);
    DrainFreelist(s, j);
    if !Busy(s, id) { DrainTally(s, j); }
  }

  lemma DrainFreelist(s: State, j: nat)
    requires s.freelist <= |s.order| && j < |s.order|
    ensures |Kept(s, j + 1)| == |Kept(s, j)| + if Busy(s, s.order[j]) then 1 else 0
    ensures DrainedFreelist(s, j + 1)
         == DrainedFreelist(s, j) - if !Busy(s, s.order[j]) && |Kept(s, j)| < DrainedFreelist(s, j) then 1 else 0
  {
    if j >= s.freelist { KeptGrows(s, s.freelist, j); }
  }

  /** Does the walk put this slab on the reclaim_list? */
  ghost predicate Collected(s: State, id: SlabId) { id in s.slabs && Due(s.cfg, s.slabs[id]) }

  predicate Due(cfg: Config, sp: Slab) {
    sp.refcnt == 0 && sp.state.Dirty? && (sp.idle + cfg.interval) % U32 >= cfg.delay
  }

  ghost function Collects(s: State): SlabId -> bool {
    (id: SlabId) => Collected(s, id)
  }

  function Visit(s: State, k: nat): State
    requires k < |s.order| && s.order[k] in s.slabs
  {
    var id := s.order[k];
    var s1 := s.(slabs := s.slabs[id := Age(s.cfg, s.slabs[id])]);
    if Doomed(s.cfg, s.slabs[id]) then Unlink(s1, k) else s1
  }

  /** The slab list when the slabs from position `i` on have been visited. */
  ghost function WalkedOrder(s: State, i: nat): seq<SlabId>
    requires i <= |s.order|
  {
    s.order[..i] + Filter(s.order[i..], Keeps(s))
  }

  ghost function WalkedFreelist(s: State, i: nat): nat
    requires s.freelist <= |s.order| && i <= |s.order|
  {
    if i >= s.freelist then s.freelist else i + |Filter(s.order[i..s.freelist], Keeps(s))|
  }

  ghost function WalkedSlabs(s: State, i: nat): map<SlabId, Slab>
    requires i <= |s.order|
  {
    map id | id in s.slabs :: (if id in s.order[i..] then Age(s.cfg, s.slabs[id]) else s.slabs[id])
  }

  ghost function Walk(s: State, i: nat): State
    requires s.freelist <= |s.order| && i <= |s.order|
  {
    s.(slabs := WalkedSlabs(s, i),
       order := WalkedOrder(s, i),
       freelist := WalkedFreelist(s, i),
       buftotal := Tally(WalkedOrder(s, i), s.slabs))
  }

  lemma WalkStart(s: State)
    requires Linked(s.order, s.slabs) && s.freelist <= |s.order| && s.buftotal == Tally(s.order, s.slabs)
    ensures Walk(s, |s.order|) == s
  {
    assert s.order[|s.order|..] == [] && s.order[..|s.order|] == s.order;
    assert WalkedSlabs(s, |s.order|) == s.slabs;
    assert WalkedOrder(s, |s.order|) == s.order;
  }

  lemma WalkOrder(s: State, i: nat)
    requires 0 < i <= |s.order|
    ensures WalkedOrder(s, i)[i - 1] == s.order[i - 1]
    ensures WalkedOrder(s, i - 1)
         == if Keeps(s)(s.order[i - 1]) then WalkedOrder(s, i) else RemoveAt(WalkedOrder(s, i), i - 1)
  {
    var x := s.order[i - 1];
    var p, q := s.order[..i - 1], Filter(s.order[i..], Keeps(s));
    WalkOrderSplit(s, i, p, q);
    RemoveMiddle(p, x, q);
  }

  lemma WalkOrderSplit(s: State, i: nat, p: seq<SlabId>, q: seq<SlabId>)
    requires 0 < i <= |s.order| && p == s.order[..i - 1] && q == Filter(s.order[i..], Keeps(s))
    ensures WalkedOrder(s, i) == p + [s.order[i - 1]] + q
    ensures WalkedOrder(s, i - 1) == if Keeps(s)(s.order[i - 1]) then p + [s.order[i - 1]] + q else p + q
  {
    var x := s.order[i - 1];
    assert s.order[i - 1..] == [x] + s.order[i..];
    FilterCons(x, s.order[i..], Keeps(s));
    assert s.order[..i] == p + [x];
    assert p + ([x] + q) == p + [x] + q;
  }

  lemma WalkFreelist(s: State, i: nat)
    requires s.freelist <= |s.order| && 0 < i <= |s.order|
    ensures WalkedFreelist(s, i - 1)
         == WalkedFreelist(s, i) - if Keeps(s)(s.order[i - 1]) || i - 1 >= WalkedFreelist(s, i) then 0 else 1
  {
    if i <= s.freelist {
      var x := s.order[i - 1];
      assert s.order[i - 1..s.freelist] == [x] + s.order[i..s.freelist];
      FilterCons(x, s.order[i..s.freelist], Keeps(s));
    }
  }

  lemma WalkSlabs(s: State, i: nat)
    requires Linked(s.order, s.slabs) && 0 < i <= |s.order|
    ensures s.order[i - 1] in s.slabs && WalkedSlabs(s, i)[s.order[i - 1]] == s.slabs[s.order[i - 1]]
    ensures WalkedSlabs(s, i - 1) == WalkedSlabs(s, i)[s.order[i - 1] := Age(s.cfg, s.slabs[s.order[i - 1]])]
  {
    var x := s.order[i - 1];
    assert x !in s.order[i..];
    assert s.order[i - 1..] == [x] + s.order[i..];
  }

  lemma WalkTally(s: State, i: nat)
    requires Linked(s.order, s.slabs) && 0 < i <= |s.order|
    requires Doomed(s.cfg, s.slabs[s.order[i - 1]])
    ensures Tally(WalkedOrder(s, i), s.slabs)
         == Tally(WalkedOrder(s, i - 1), s.slabs) + |s.slabs[s.order[i - 1]].chunks|
  {
    var x := s.order[i - 1];
    var p, q := s.order[..i - 1], Filter(s.order[i..], Keeps(s));
    assert s.order[..i] == p + [x];
    assert s.order[i - 1..] == [x] + s.order[i..];
    FilterCons(x, s.order[i..], Keeps(s));
    assert x !in p && x !in s.order[i..];
    TallyAdds(p + q, (p + [x]) + q, x, s.slabs);
  }

  lemma WalkStep(s: State, i: nat)
    requires Linked(s.order, s.slabs) && s.freelist <= |s.order| && 0 < i <= |s.order|
    ensures Walk(s, i).order[i - 1] == s.order[i - 1] && s.order[i - 1] in s.slabs
    ensures Walk(s, i).slabs[s.order[i - 1]] == s.slabs[s.order[i - 1]]
    ensures Visit(Walk(s, i), i - 1) == Walk(s, i - 1)
  {
    var id, w, k := s.order[i - 1], Walk(s, i), i - 1;
    WalkOrder(s, i);
    WalkFreelist(s, i);
    WalkSlabs(s, i);
    assert Keeps(s)(id) == !Doomed(s.cfg, s.slabs[id]);
    if Doomed(s.cfg, s.slabs[id]) {
      WalkTally(s, i);
      VisitDoomed(w, k, WalkedOrder(s, k), WalkedFreelist(s, k), Walk(s, k).buftotal);
    }
  }

  lemma VisitDoomed(w: State, k: nat, order: seq<SlabId>, freelist: nat, buftotal: int)
    requires k < |w.order| && w.order[k] in w.slabs && Doomed(w.cfg, w.slabs[w.order[k]])
    requires order == RemoveAt(w.order, k) && freelist == w.freelist - if k < w.freelist then 1 else 0
    requires buftotal == w.buftotal - |w.slabs[w.order[k]].chunks|
    ensures var id := w.order[k];
            Visit(w, k) == w.(slabs := w.slabs[id := Age(w.cfg, w.slabs[id])], order := order,
                              freelist := freelist, buftotal := buftotal)
  {
  }

  lemma WalkSeesOriginal(s: State, i: nat)
    requires Linked(s.order, s.slabs) && s.freelist <= |s.order| && 0 < i <= |s.order|
    ensures Collected(Walk(s, i), s.order[i - 1]) <==> Collects(s)(s.order[i - 1])
  {
    WalkSlabs(s, i);
  }

  lemma WalkList(s: State, i: nat)
    requires Linked(s.order, s.slabs) && s.freelist <= |s.order| && 0 < i <= |s.order|
    ensures Filter(s.order[i - 1..], Collects(s))
         == if Collected(Walk(s, i), s.order[i - 1]) then [s.order[i - 1]] + Filter(s.order[i..], Collects(s))
            else Filter(s.order[i..], Collects(s))
  {
    var x, y := s.order[i - 1], s.order[i..];
    assert s.order[i - 1..] == [x] + y;
    WalkSeesOriginal(s, i);
    FilterCons(x, y, Collects(s));
  }

  lemma WalkCollects(cfg: Config, sp: Slab)
    requires !sp.state.Reclaiming?
    ensures Due(cfg, sp) <==> !Doomed(cfg, sp) && Age(cfg, sp).state.Reclaiming?
  {
  }

  /** The walk in place does what the one-step description of the pass says. */
  lemma WalkIsCollect(s: State, s': State, l: seq<SlabId>)
    requires Inv(s) && s.pass.None? && s' == Walk(s, 0).(pass := Some(l))
    requires l == Filter(s.order, Collects(s))
    ensures Collect(s, s', l)
  {
    assert s.order[0..] == s.order && s.order[..0] == [] && s.order[0..s.freelist] == s.order[..s.freelist];
    assert s'.order == Filter(s.order, Keeps(s));
    assert s'.freelist == |Filter(s.order[..s.freelist], Keeps(s))| by {
      if s.freelist == 0 { assert s.order[..s.freelist] == []; }
    }
    FilterNoDup(s.order, Collects(s));
    forall id ensures id in l <==> id in s'.order && s'.slabs[id].state.Reclaiming? {
      if id in s.order { WalkCollects(s.cfg, s.slabs[id]); }
    }
  }
}
