/**
 * What every run of the slab layer keeps: each slab's freelist and reference count agreeing,
 * full and idle slabs in front of cache_freelist and no full one behind it, no chunk in two
 * slabs, cache_buftotal exact, and every outstanding buffer findable from its address.  Each
 * operation is proved part by part; the lemma that puts the parts together ends in Keeps.
 */
module SlabInvariants {
  import opened Collections
  import opened SlabLayer
  import AllocatedHash

  // ---- sets and tallies ----

  lemma UsedSize(sp: Slab)
    requires NoDup(sp.free) && (forall a :: a in sp.free ==> a in sp.chunks)
    ensures |Used(sp)| == |sp.chunks| - |sp.free|
  {
    NoDupCardinality(sp.free);
    var f := set a | a in sp.free;
    assert f <= sp.chunks;
    assert Used(sp) + f == sp.chunks;
  }

  lemma TallySame(x: seq<SlabId>, y: seq<SlabId>, m: map<SlabId, Slab>, m': map<SlabId, Slab>)
    requires forall id :: id in x && id in m <==> id in y && id in m'
    requires forall id :: id in x && id in m ==> m[id].chunks == m'[id].chunks
    ensures Tally(x, m) == Tally(y, m')
  {
    assert LinkedChunks(x, m) == LinkedChunks(y, m');
  }

  lemma TallyAdds(x: seq<SlabId>, y: seq<SlabId>, id: SlabId, m: map<SlabId, Slab>)
    requires id in m && id !in x && forall i :: i in y <==> i in x || i == id
    ensures Tally(y, m) == Tally(x, m) + |m[id].chunks|
  {
    PoolAdd(LinkedChunks(x, m), id, multiset(m[id].chunks));
    assert LinkedChunks(y, m) == LinkedChunks(x, m)[id := multiset(m[id].chunks)];
  }

  lemma ApartSame(m: map<SlabId, Slab>, m': map<SlabId, Slab>)
    requires Apart(m) && forall id :: id in m' ==> id in m && m'[id].chunks == m[id].chunks
    ensures Apart(m')
  {
    forall i, j ensures ApartAt(m', i, j) { assert ApartAt(m, i, j); }
  }

  lemma HomedSame(cfg: Config, m: map<SlabId, Slab>, m': map<SlabId, Slab>)
    requires cfg.slabsize > 0 && Homed(cfg, m) && forall id :: id in m' ==> id in m && m'[id].chunks == m[id].chunks
    ensures Homed(cfg, m')
  {
  }

  // ---- umem_slab_alloc ----

  lemma TakeUsed(sp: Slab, sp': Slab)
    requires Counted(sp) && sp.free != []
    requires sp'.chunks == sp.chunks && sp'.free == sp.free[1..] && sp'.refcnt == sp.refcnt + 1
    ensures Counted(sp') && sp.free[0] in sp.chunks && sp.free[0] !in Used(sp)
    ensures Used(sp') == Used(sp) + {sp.free[0]}
  {
    assert sp.free == [sp.free[0]] + sp.free[1..];
    assert sp.free[0] !in sp.free[1..];
  }

  lemma TakeTable(s: State, id: SlabId, buf: Addr, sp': Slab)
    requires s.cfg.hashed && TableExact(s.cfg, s.table, s.slabs) && id in s.slabs && Apart(s.slabs)
    requires buf in s.slabs[id].chunks && buf !in Used(s.slabs[id])
    requires sp'.chunks == s.slabs[id].chunks && Used(sp') == Used(s.slabs[id]) + {buf}
    ensures TableExact(s.cfg, Hashed(s, AllocatedHash.Bufctl(buf, id)), s.slabs[id := sp'])
  {
    var e := AllocatedHash.Bufctl(buf, id);
    assert AllocatedHash.Absent(s.table, s.cfg.unit, buf) by {
      var h := AllocatedHash.Bucket(buf, s.cfg.unit, |s.table|);
      forall f | f in s.table[h] ensures f.addr != buf {
        assert AllocatedHash.ChainOk(s.table[h], h, s.cfg.unit, |s.table|);
        assert AllocatedHash.Has(s.table, s.cfg.unit, f);
        assert ApartAt(s.slabs, f.slab, id);
      }
    }
    AllocatedHash.InsertAdds(s.table, s.cfg.unit, e);
  }

  /** Giving slab `id` one more used buffer adds exactly that buffer to the outstanding ones. */
  lemma OutstandingGrows(s: State, s': State, id: SlabId, buf: Addr)
    requires id in s.slabs && s'.slabs.Keys == s.slabs.Keys && Apart(s.slabs)
    requires forall i :: i in s.slabs && i != id ==> s'.slabs[i] == s.slabs[i]
    requires buf in s.slabs[id].chunks && buf !in Used(s.slabs[id])
    requires Used(s'.slabs[id]) == Used(s.slabs[id]) + {buf}
    ensures buf !in Outstanding(s) && Outstanding(s') == Outstanding(s) + {buf}
  {
    assert Outstanding(s') <= Outstanding(s) + {buf} by {
      forall a | a in Outstanding(s') ensures a in Outstanding(s) + {buf} {
        var i :| i in s'.slabs && a in Used(s'.slabs[i]);
        assert a == buf || a in Used(s.slabs[i]);
      }
    }
    assert Outstanding(s) <= Outstanding(s') by {
      forall a | a in Outstanding(s) ensures a in Outstanding(s') {
        var i :| i in s.slabs && a in Used(s.slabs[i]);
        assert a in Used(s'.slabs[i]);
      }
    }
    assert buf in Used(s'.slabs[id]);
    forall i | i in s.slabs ensures buf !in Used(s.slabs[i]) {
      if i != id { assert ApartAt(s.slabs, i, id); }
    }
  }

  lemma TakeParked(s: State, j: nat)
    requires j < |s.order| && Linked(s.order, s.slabs) && Parked(s.order, s.freelist, s.slabs)
    requires SlabsOkBut(s, Some(s.order[j])) && s.freelist <= j && s.slabs[s.order[j]].free != []
    requires forall i {:trigger s.order[i]} :: s.freelist <= i < j ==> s.slabs[s.order[i]].state.Reclaiming?
    ensures Linked(Take(s, j).0.order, Take(s, j).0.slabs)
    ensures Parked(Take(s, j).0.order, Take(s, j).0.freelist, Take(s, j).0.slabs)
  {
    var s' := Take(s, j).0;
    forall i {:trigger s.order[i]} | 0 <= i < |s.order| && i != j
      ensures s'.slabs[s.order[i]] == s.slabs[s.order[i]]
    {
      assert s.order[i] != s.order[j];
    }
    forall i {:trigger s.order[i]} | s.freelist <= i < j ensures s.slabs[s.order[i]].refcnt == 0 {
      assert s.order[i] != s.order[j];
      assert SlabAt(s.cfg, s.order, s.slabs, Some(s.order[j]), s.order[i]);
    }
  }

  lemma TakeSlabs(s: State, j: nat)
    requires j < |s.order| && Linked(s.order, s.slabs) && SlabsOkBut(s, Some(s.order[j]))
    requires s.slabs[s.order[j]].free != []
    ensures SlabsOkBut(Take(s, j).0, None)
    ensures Take(s, j).1 in s.slabs[s.order[j]].chunks && Take(s, j).1 !in Used(s.slabs[s.order[j]])
    ensures Used(Take(s, j).0.slabs[s.order[j]]) == Used(s.slabs[s.order[j]]) + {Take(s, j).1}
  {
    var id := s.order[j];
    var s' := Take(s, j).0;
    assert SlabAt(s.cfg, s.order, s.slabs, Some(id), id);
    TakeUsed(s.slabs[id], s'.slabs[id]);
    forall x ensures SlabAt(s.cfg, s'.order, s'.slabs, None, x) {
      assert SlabAt(s.cfg, s.order, s.slabs, Some(id), x);
    }
  }

  lemma TakeFindable(s: State, j: nat)
    requires j < |s.order| && s.order[j] in s.slabs && s.slabs[s.order[j]].free != []
    requires Findable(s) && Apart(s.slabs)
    requires Take(s, j).1 in s.slabs[s.order[j]].chunks && Take(s, j).1 !in Used(s.slabs[s.order[j]])
    requires Used(Take(s, j).0.slabs[s.order[j]]) == Used(s.slabs[s.order[j]]) + {Take(s, j).1}
    ensures Findable(Take(s, j).0) && Apart(Take(s, j).0.slabs)
  {
    var id := s.order[j];
    var (s', buf) := Take(s, j);
    ApartSame(s.slabs, s'.slabs);
    if s.cfg.hashed { TakeTable(s, id, buf, s'.slabs[id]); } else { HomedSame(s.cfg, s.slabs, s'.slabs); }
  }

  /** Taking a buffer hands out one that was not outstanding, and leaves every invariant in place. */
  lemma TakeKeeps(s: State, j: nat)
    requires j < |s.order| && InvBut(s, Some(s.order[j]))
    requires s.freelist <= j && s.slabs[s.order[j]].free != [] && !s.slabs[s.order[j]].state.Reclaiming?
    requires forall i {:trigger s.order[i]} :: s.freelist <= i < j ==> s.slabs[s.order[i]].state.Reclaiming?
    ensures Inv(Take(s, j).0)
    ensures Take(s, j).1 !in Outstanding(s)
    ensures Outstanding(Take(s, j).0) == Outstanding(s) + {Take(s, j).1}
  {
    var id := s.order[j];
    var (s', buf) := Take(s, j);
    TakeSlabs(s, j);
    TakeFindable(s, j);
    OutstandingGrows(s, s', id, buf);
    TakeParked(s, j);
    TallySame(s.order, s.order, s.slabs, s'.slabs);
  }

  /** umem_slab_alloc when some linked slab can serve: never from one being reclaimed. */
  lemma AllocKeeps(s: State)
    requires Inv(s) && Target(s) < |s.order|
    ensures !s.slabs[s.order[Target(s)]].state.Reclaiming? && s.slabs[s.order[Target(s)]].free != []
    ensures var (s', buf) := Take(s, Target(s));
            Inv(s') && buf !in Outstanding(s) && Outstanding(s') == Outstanding(s) + {buf}
  {
    forall x ensures SlabAt(s.cfg, s.order, s.slabs, Some(s.order[Target(s)]), x) {
      assert SlabAt(s.cfg, s.order, s.slabs, None, x);
    }
    TakeKeeps(s, Target(s));
  }

  lemma LinkKeeps(s: State, id: SlabId)
    requires Inv(s) && id in s.slabs && id !in s.order && Created(s.slabs[id])
    ensures InvBut(Link(s, id), Some(id))
    ensures Link(s, id).order[s.freelist] == id && s.slabs[id].free != []
  {
    InsertAtNoDup(s.order, s.freelist, id);
    TallyAdds(s.order, Link(s, id).order, id, s.slabs);
    forall x ensures SlabAt(s.cfg, Link(s, id).order, s.slabs, Some(id), x) {
      assert SlabAt(s.cfg, s.order, s.slabs, None, x);
    }
  }

  /** umem_slab_alloc when it created a slab: link it, then take from it. */
  lemma LinkTakeKeeps(s: State, id: SlabId)
    requires Inv(s) && id in s.slabs && id !in s.order && Created(s.slabs[id])
    ensures Link(s, id).order[s.freelist] == id && s.slabs[id].free != []
    ensures var (s', buf) := Take(Link(s, id), s.freelist);
            Inv(s') && buf !in Outstanding(s) && Outstanding(s') == Outstanding(s) + {buf}
  {
    LinkKeeps(s, id);
    TakeKeeps(Link(s, id), s.freelist);
  }

  // ---- umem_slab_create, umem_slab_destroy ----

  lemma NoneUsed(sp: Slab)
    requires Counted(sp) && sp.refcnt == 0
    ensures Used(sp) == {}
  {
    UsedSize(sp);
  }

  /** Every slab of `m` that has buffers out has the same ones out in `m'`. */
  ghost predicate SameUsed(m: map<SlabId, Slab>, m': map<SlabId, Slab>) {
    forall id, a :: id in m && a in Used(m[id]) ==> id in m' && a in Used(m'[id])
  }

  lemma OutstandingSame(s: State, s': State)
    requires SameUsed(s.slabs, s'.slabs) && SameUsed(s'.slabs, s.slabs)
    ensures Outstanding(s') == Outstanding(s)
    ensures s'.cfg == s.cfg && s'.table == s.table && TableExact(s.cfg, s.table, s.slabs)
            ==> TableExact(s'.cfg, s'.table, s'.slabs)
  {
  }

  lemma CreateSlabs(s: State, id: SlabId, sp: Slab)
    requires SlabsOkBut(s, None) && Apart(s.slabs) && Linked(s.order, s.slabs) && CanCreate(s, id, sp)
    ensures SlabsOkBut(Create(s, id, sp), None) && Apart(Create(s, id, sp).slabs)
  {
    var m := s.slabs[id := sp];
    forall x ensures SlabAt(s.cfg, s.order, m, None, x) { assert SlabAt(s.cfg, s.order, s.slabs, None, x); }
    forall i, j ensures ApartAt(m, i, j) { assert ApartAt(s.slabs, i, j); }
  }

  lemma CreateKeeps(s: State, id: SlabId, sp: Slab)
    requires Inv(s) && CanCreate(s, id, sp)
    ensures Inv(Create(s, id, sp)) && Outstanding(Create(s, id, sp)) == Outstanding(s)
  {
    var s' := Create(s, id, sp);
    CreateSlabs(s, id, sp);
    NoneUsed(sp);
    assert SameUsed(s'.slabs, s.slabs) by {
      forall i, a | i in s'.slabs && a in Used(s'.slabs[i]) ensures i in s.slabs && a in Used(s.slabs[i]) {
        assert i != id;
      }
    }
    OutstandingSame(s, s');
    TallySame(s.order, s.order, s.slabs, s'.slabs);
  }

  lemma DestroySlabs(s: State, id: SlabId)
    requires SlabsOkBut(s, None) && Apart(s.slabs) && id in s.slabs && id !in s.order
    ensures SlabsOkBut(Destroy(s, id), None) && Apart(Destroy(s, id).slabs) && Used(s.slabs[id]) == {}
  {
    var m := s.slabs - {id};
    ApartSame(s.slabs, m);
    assert SlabAt(s.cfg, s.order, s.slabs, None, id);
    NoneUsed(s.slabs[id]);
    forall x ensures SlabAt(s.cfg, s.order, m, None, x) { assert SlabAt(s.cfg, s.order, s.slabs, None, x); }
  }

  lemma DestroyKeeps(s: State, id: SlabId)
    requires Inv(s) && id in s.slabs && id !in s.order
    ensures Inv(Destroy(s, id)) && Outstanding(Destroy(s, id)) == Outstanding(s)
  {
    var s' := Destroy(s, id);
    DestroySlabs(s, id);
    assert SameUsed(s.slabs, s'.slabs) by {
      forall i, a | i in s.slabs && a in Used(s.slabs[i]) ensures i in s'.slabs && a in Used(s'.slabs[i]) {
        assert i != id;
      }
    }
    OutstandingSame(s, s');
    TallySame(s.order, s.order, s.slabs, s'.slabs);
  }

  // ---- umem_slab_free ----

  /** What a caller owes: a cache without a hash table cannot tell a repeated free. */
  ghost predicate MayFree(s: State, a: Addr)
    requires s.cfg.slabsize > 0
  {
    s.cfg.hashed || SlabOf(s, a).None? || a in Outstanding(s)
  }

  lemma OwnerOf(s: State, id: SlabId, a: Addr)
    requires Inv(s) && id in s.slabs && a in Used(s.slabs[id])
    ensures id in s.order && SlabOf(s, a) == Some(id)
  {
    assert SlabAt(s.cfg, s.order, s.slabs, None, id);
    UsedSize(s.slabs[id]);
    assert s.slabs[id].refcnt > 0;
    if s.cfg.hashed {
      AllocatedHash.FindExact(s.table, s.cfg.unit, AllocatedHash.Bufctl(a, id));
    }
  }

  /** The lookup finds exactly the outstanding buffers, each in its own slab. */
  lemma LookupExact(s: State, a: Addr)
    requires Inv(s) && MayFree(s, a)
    ensures SlabOf(s, a).Some? <==> a in Outstanding(s)
    ensures SlabOf(s, a).Some? ==>
        SlabOf(s, a).value in s.order && a in Used(s.slabs[SlabOf(s, a).value])
  {
    if a in Outstanding(s) {
      var id :| id in s.slabs && a in Used(s.slabs[id]);
      OwnerOf(s, id, a);
    } else if s.cfg.hashed && SlabOf(s, a).Some? {
      var e := AllocatedHash.Find(s.table, s.cfg.unit, a).value;
      AllocatedHash.FindExact(s.table, s.cfg.unit, e);
      assert false;
    }
  }

  lemma ReturnUsed(sp: Slab, a: Addr, retain: bool)
    requires Counted(sp) && a in Used(sp)
    ensures Counted(Returned(sp, a, retain)) && Used(Returned(sp, a, retain)) == Used(sp) - {a}
  {
    UsedSize(sp);
  }

  lemma ReturnTable(s: State, id: SlabId, a: Addr, sp': Slab)
    requires TableExact(s.cfg, s.table, s.slabs) && id in s.slabs && Apart(s.slabs)
    requires a in Used(s.slabs[id]) && Used(sp') == Used(s.slabs[id]) - {a}
    ensures TableExact(s.cfg, AllocatedHash.Remove(s.table, s.cfg.unit, a), s.slabs[id := sp'])
  {
    AllocatedHash.RemoveDeletes(s.table, s.cfg.unit, a);
    var t := AllocatedHash.Remove(s.table, s.cfg.unit, a);
    var m := s.slabs[id := sp'];
    forall e ensures AllocatedHash.Has(t, s.cfg.unit, e) <==> e.slab in m && e.addr in Used(m[e.slab]) {
      if e.slab in s.slabs && e.slab != id && e.addr == a {
        assert ApartAt(s.slabs, e.slab, id);
      }
    }
  }

  lemma OutstandingShrinks(s: State, s': State, id: SlabId, a: Addr)
    requires id in s.slabs && s'.slabs.Keys == s.slabs.Keys && Apart(s'.slabs)
    requires forall i :: i in s.slabs && i != id ==> s'.slabs[i] == s.slabs[i]
    requires s'.slabs[id].chunks == s.slabs[id].chunks
    requires a in Used(s.slabs[id]) && Used(s'.slabs[id]) == Used(s.slabs[id]) - {a}
    ensures Outstanding(s') == Outstanding(s) - {a}
  {
    assert Used(s.slabs[id]) == Used(s'.slabs[id]) + {a};
    OutstandingGrows(s', s, id, a);
  }

  /** Moving a full slab leaves it first in the freelist part and the others where they were. */
  lemma RequeueOrder(s: State, k: nat)
    requires Linked(s.order, s.slabs) && Parked(s.order, s.freelist, s.slabs) && k < s.freelist
    ensures var r := Requeue(s, k);
        && Linked(r.order, s.slabs) && |r.order| == |s.order| && r.order[r.freelist] == s.order[k]
        && (forall x :: x in r.order <==> x in s.order)
        && (forall i {:trigger r.order[i]} :: 0 <= i < r.freelist ==>
              s.slabs[r.order[i]].free == [] || s.slabs[r.order[i]].refcnt == 0)
        && (forall i {:trigger r.order[i]} :: r.freelist < i < |r.order| ==> s.slabs[r.order[i]].free != [])
  {
    RemoveAtNoDup(s.order, k);
    InsertAtNoDup(RemoveAt(s.order, k), s.freelist - 1, s.order[k]);
  }

  /** Taking an idle slab out of the list. */
  lemma UnlinkKeeps(s: State, k: nat)
    requires k < |s.order| && InvBut(s, Some(s.order[k]))
    requires s.slabs[s.order[k]].refcnt == 0 && !s.slabs[s.order[k]].state.Reclaiming?
    ensures Inv(Unlink(s, k)) && Outstanding(Unlink(s, k)) == Outstanding(s)
  {
    RemoveAtNoDup(s.order, k);
    TallyAdds(RemoveAt(s.order, k), s.order, s.order[k], s.slabs);
    forall x ensures SlabAt(s.cfg, Unlink(s, k).order, s.slabs, None, x) {
      assert SlabAt(s.cfg, s.order, s.slabs, Some(s.order[k]), x);
    }
  }

  lemma PutRequeued(s: State, id: SlabId, sp': Slab)
    requires Linked(s.order, s.slabs) && Parked(s.order, s.freelist, s.slabs) && id in s.order
    requires s.slabs[id].free == [] && sp'.free != [] && IndexOf(s.order, id) < s.freelist
    ensures var r := Requeue(s, IndexOf(s.order, id));
        && Linked(r.order, s.slabs[id := sp']) && Parked(r.order, r.freelist, s.slabs[id := sp'])
        && (forall x :: x in r.order <==> x in s.order)
  {
    var k, m := IndexOf(s.order, id), s.slabs[id := sp'];
    var r := Requeue(s, k);
    RequeueOrder(s, k);
    forall i {:trigger r.order[i]} | 0 <= i < |r.order| && i != r.freelist
      ensures m[r.order[i]] == s.slabs[r.order[i]]
    {
      assert r.order[i] != r.order[r.freelist];
    }
  }

  lemma PutStays(s: State, id: SlabId, sp': Slab)
    requires Linked(s.order, s.slabs) && Parked(s.order, s.freelist, s.slabs) && id in s.order
    requires s.slabs[id].free != [] && s.slabs[id].refcnt != 0 && sp'.free != []
    ensures Linked(s.order, s.slabs[id := sp']) && Parked(s.order, s.freelist, s.slabs[id := sp'])
  {
    var k, m := IndexOf(s.order, id), s.slabs[id := sp'];
    assert k >= s.freelist;
    forall i {:trigger s.order[i]} | 0 <= i < |s.order| && i != k ensures m[s.order[i]] == s.slabs[s.order[i]] {
      assert s.order[i] != s.order[k];
    }
  }

  lemma PutParked(s: State, id: SlabId, a: Addr, retain: bool)
    requires Inv(s) && id in s.order && a in Used(s.slabs[id])
    ensures var s' := Put(s, id, a, retain);
        && Linked(s'.order, s'.slabs) && Parked(s'.order, s'.freelist, s'.slabs)
        && (forall x :: x in s'.order <==> x in s.order)
  {
    assert SlabAt(s.cfg, s.order, s.slabs, None, id);
    UsedSize(s.slabs[id]);
    var sp' := Returned(s.slabs[id], a, retain);
    if s.slabs[id].free == [] {
      assert s.slabs[s.order[IndexOf(s.order, id)]].free == [];
      PutRequeued(s, id, sp');
    } else {
      PutStays(s, id, sp');
    }
  }

  /** Replacing one in-use slab by another version of itself, the list permuted. */
  lemma SlabChanged(s: State, s': State, id: SlabId, sp': Slab)
    requires SlabsOkBut(s, None) && Apart(s.slabs) && id in s.slabs && id in s.order
    requires s'.cfg == s.cfg && s'.slabs == s.slabs[id := sp'] && forall x :: x in s'.order <==> x in s.order
    requires Counted(sp') && sp'.chunks == s.slabs[id].chunks
    ensures SlabsOkBut(s', Some(id)) && Apart(s'.slabs)
    ensures Consistent(s.cfg, sp') ==> SlabsOkBut(s', None)
  {
    ApartSame(s.slabs, s'.slabs);
    forall x ensures SlabAt(s.cfg, s'.order, s'.slabs, Some(id), x) {
      assert SlabAt(s.cfg, s.order, s.slabs, None, x);
    }
    if Consistent(s.cfg, sp') {
      forall x ensures SlabAt(s.cfg, s'.order, s'.slabs, None, x) {
        assert SlabAt(s.cfg, s.order, s.slabs, None, x);
      }
    }
  }

  lemma PassChanged(s: State, s': State, id: SlabId, sp': Slab)
    requires Linked(s.order, s.slabs) && PassOk(s) && id in s.order && !s.slabs[id].state.Reclaiming?
    requires s'.pass == s.pass && s'.slabs == s.slabs[id := sp'] && Linked(s'.order, s'.slabs)
    requires (forall x :: x in s'.order <==> x in s.order) && !sp'.state.Reclaiming?
    ensures PassOk(s')
  {
  }

  lemma PutSlabs(s: State, id: SlabId, a: Addr, retain: bool)
    requires Inv(s) && id in s.order && a in Used(s.slabs[id])
    ensures var s' := Put(s, id, a, retain);
        && SlabsOkBut(s', Some(id)) && Apart(s'.slabs)
        && Linked(s'.order, s'.slabs) && PassOk(s')
        && !s'.slabs[id].state.Reclaiming?
        && (s'.slabs[id].refcnt > 0 || retain ==> SlabsOkBut(s', None))
  {
    assert SlabAt(s.cfg, s.order, s.slabs, None, id);
    UsedSize(s.slabs[id]);
    ReturnUsed(s.slabs[id], a, retain);
    PutParked(s, id, a, retain);
    var sp' := Returned(s.slabs[id], a, retain);
    SlabChanged(s, Put(s, id, a, retain), id, sp');
    PassChanged(s, Put(s, id, a, retain), id, sp');
    assert sp'.refcnt > 0 || retain ==> Consistent(s.cfg, sp');
  }

  lemma PutFindable(s: State, id: SlabId, a: Addr, retain: bool)
    requires Findable(s) && Apart(s.slabs) && Linked(s.order, s.slabs) && Parked(s.order, s.freelist, s.slabs)
    requires id in s.order && a in Used(s.slabs[id]) && Counted(s.slabs[id])
    ensures Findable(Put(s, id, a, retain))
  {
    ReturnUsed(s.slabs[id], a, retain);
    var sp' := Returned(s.slabs[id], a, retain);
    if s.cfg.hashed { ReturnTable(s, id, a, sp'); } else { HomedSame(s.cfg, s.slabs, s.slabs[id := sp']); }
  }

  lemma PutOutstanding(s: State, id: SlabId, a: Addr, retain: bool)
    requires Inv(s) && id in s.order && a in Used(s.slabs[id])
    ensures Outstanding(Put(s, id, a, retain)) == Outstanding(s) - {a}
    ensures Put(s, id, a, retain).buftotal == Tally(Put(s, id, a, retain).order, Put(s, id, a, retain).slabs)
  {
    var s' := Put(s, id, a, retain);
    assert SlabAt(s.cfg, s.order, s.slabs, None, id);
    ReturnUsed(s.slabs[id], a, retain);
    PutParked(s, id, a, retain);
    ApartSame(s.slabs, s'.slabs);
    OutstandingShrinks(s, s', id, a);
    TallySame(s.order, s'.order, s.slabs, s'.slabs);
  }

  lemma PutKeeps(s: State, id: SlabId, a: Addr, retain: bool)
    requires Inv(s) && id in s.order && a in Used(s.slabs[id])
    ensures var s' := Put(s, id, a, retain);
        && InvBut(s', Some(id)) && Outstanding(s') == Outstanding(s) - {a}
        && !s'.slabs[id].state.Reclaiming?
        && (s'.slabs[id].refcnt > 0 || retain ==> Inv(s'))
  {
    assert SlabAt(s.cfg, s.order, s.slabs, None, id);
    PutSlabs(s, id, a, retain);
    PutParked(s, id, a, retain);
    PutFindable(s, id, a, retain);
    PutOutstanding(s, id, a, retain);
  }

  /**
   * umem_slab_free: a refused address changes nothing; an outstanding one leaves the
   * outstanding set and nothing else does, whatever the reclaim setting.
   */
  lemma FreeKeeps(s: State, a: Addr, retain: bool)
    requires Inv(s) && MayFree(s, a)
    ensures Inv(Free(s, a, retain))
    ensures Outstanding(Free(s, a, retain)) == Outstanding(s) - {a}
    ensures a !in Outstanding(s) ==> Free(s, a, retain) == s
  {
    LookupExact(s, a);
    if SlabOf(s, a).Some? {
      var id := SlabOf(s, a).value;
      PutKeeps(s, id, a, retain);
      var s2 := Put(s, id, a, retain);
      assert id in s2.order by { PutParked(s, id, a, retain); }
      assert SlabAt(s2.cfg, s2.order, s2.slabs, Some(id), id);
      if s2.slabs[id].refcnt == 0 && !retain { UnlinkKeeps(s2, IndexOf(s2.order, id)); }
    }
  }

  // ---- umem_cache_reclaim_pages ----

  /** A slab list keeps its shape when some slabs are dropped from it. */
  lemma FilterParked(s: State, keep: SlabId -> bool, r: seq<SlabId>, n: nat)
    requires Linked(s.order, s.slabs) && Parked(s.order, s.freelist, s.slabs)
    requires r == Filter(s.order, keep) && n == |Filter(s.order[..s.freelist], keep)|
    ensures Linked(r, s.slabs) && Parked(r, n, s.slabs)
  {
    FilterSides(s.order, s.freelist, keep);
    FilterNoDup(s.order, keep);
    forall i {:trigger r[i]} | 0 <= i < n ensures s.slabs[r[i]].free == [] || s.slabs[r[i]].refcnt == 0 {
      var j :| 0 <= j < s.freelist && s.order[..s.freelist][j] == r[i];
      assert s.order[j] == r[i];
    }
    forall i {:trigger r[i]} | n <= i < |r| ensures s.slabs[r[i]].free != [] {
      var j :| 0 <= j < |s.order[s.freelist..]| && s.order[s.freelist..][j] == r[i];
      assert s.order[s.freelist + j] == r[i];
    }
  }

  lemma AgeKeeps(cfg: Config, sp: Slab)
    requires ConfigOk(cfg) && Counted(sp) && Consistent(cfg, sp)
    ensures Counted(Age(cfg, sp)) && Consistent(cfg, Age(cfg, sp))
    ensures Used(Age(cfg, sp)) == Used(sp)
    ensures Doomed(cfg, sp) ==> Private(Age(cfg, sp))
  {
  }

  lemma CollectSlab(s: State, s': State, l: seq<SlabId>, id: SlabId)
    requires ConfigOk(s.cfg) && SlabsOkBut(s, None) && Collect(s, s', l)
    ensures SlabAt(s.cfg, s'.order, s'.slabs, None, id)
    ensures id in s.slabs ==> s'.slabs[id].chunks == s.slabs[id].chunks && Used(s'.slabs[id]) == Used(s.slabs[id])
  {
    assert SlabAt(s.cfg, s.order, s.slabs, None, id);
    if id in s.order {
      AgeKeeps(s.cfg, s.slabs[id]);
      assert id in s'.order <==> Keeps(s)(id);
    }
  }

  lemma CollectSlabs(s: State, s': State, l: seq<SlabId>)
    requires ConfigOk(s.cfg) && SlabsOkBut(s, None) && Apart(s.slabs) && Collect(s, s', l)
    ensures SlabsOkBut(s', None) && Apart(s'.slabs)
    ensures SameUsed(s.slabs, s'.slabs) && SameUsed(s'.slabs, s.slabs)
  {
    forall id ensures SlabAt(s.cfg, s'.order, s'.slabs, None, id) { CollectSlab(s, s', l, id); }
    forall id | id in s.slabs
      ensures s'.slabs[id].chunks == s.slabs[id].chunks && Used(s'.slabs[id]) == Used(s.slabs[id])
    {
      CollectSlab(s, s', l, id);
    }
    ApartSame(s.slabs, s'.slabs);
  }

  /** What the walk leaves alone in every slab. */
  lemma CollectSame(s: State, s': State, l: seq<SlabId>, id: SlabId)
    requires Collect(s, s', l) && id in s.slabs
    ensures s'.slabs[id].chunks == s.slabs[id].chunks && s'.slabs[id].free == s.slabs[id].free
    ensures s'.slabs[id].refcnt == s.slabs[id].refcnt
  {
  }

  lemma CollectParked(s: State, s': State, l: seq<SlabId>)
    requires Inv(s) && Collect(s, s', l)
    ensures Linked(s'.order, s'.slabs) && Parked(s'.order, s'.freelist, s'.slabs)
  {
    FilterParked(s, Keeps(s), s'.order, s'.freelist);
    forall id | id in s.slabs
      ensures s'.slabs[id].free == s.slabs[id].free && s'.slabs[id].refcnt == s.slabs[id].refcnt
    {
      CollectSame(s, s', l, id);
    }
  }

  lemma CollectTally(s: State, s': State, l: seq<SlabId>)
    requires Collect(s, s', l)
    ensures s'.buftotal == Tally(s'.order, s'.slabs)
  {
    forall id | id in s.slabs ensures s'.slabs[id].chunks == s.slabs[id].chunks {
      CollectSame(s, s', l, id);
    }
    TallySame(s'.order, s'.order, s.slabs, s'.slabs);
  }

  lemma CollectFindable(s: State, s': State, l: seq<SlabId>)
    requires Inv(s) && Collect(s, s', l)
    ensures Findable(s') && Outstanding(s') == Outstanding(s)
  {
    CollectSlabs(s, s', l);
    OutstandingSame(s, s');
    forall id | id in s.slabs ensures s'.slabs[id].chunks == s.slabs[id].chunks {
      CollectSame(s, s', l, id);
    }
  }

  /** The walk keeps the invariants and hands nothing out. */
  lemma CollectKeeps(s: State, s': State, l: seq<SlabId>)
    requires Inv(s) && Collect(s, s', l)
    ensures Inv(s') && Outstanding(s') == Outstanding(s)
  {
    CollectSlabs(s, s', l);
    CollectParked(s, s', l);
    CollectTally(s, s', l);
    CollectFindable(s, s', l);
  }

  lemma DoomedIdle(cfg: Config, sp: Slab)
    requires ConfigOk(cfg) && AgeOk(cfg, sp) && Doomed(cfg, sp)
    ensures Age(cfg, sp).emptied >= (2 * cfg.delay) % U32
    ensures cfg.delay < U32 / 2 ==> Age(cfg, sp).emptied >= 2 * cfg.delay
  {
    assert (sp.idle + cfg.interval) % U32 == (sp.emptied + cfg.interval) % U32;
  }

  /**
   * The walk unlinks only slabs that are empty and CLEAN and whose idle passes add up to
   * the threshold, which is twice the delay unless that product overflows a uint32.
   */
  lemma DestroysOnlyIdle(s: State, s': State, l: seq<SlabId>, id: SlabId)
    requires Inv(s) && Collect(s, s', l) && id in s.order && id !in s'.order
    ensures Used(s.slabs[id]) == {} && s.slabs[id].state.Clean?
    ensures s'.slabs[id].emptied >= (2 * s.cfg.delay) % U32
    ensures s.cfg.delay < U32 / 2 ==> s'.slabs[id].emptied >= 2 * s.cfg.delay
  {
    assert !Keeps(s)(id);
    assert SlabAt(s.cfg, s.order, s.slabs, None, id);
    NoneUsed(s.slabs[id]);
    DoomedIdle(s.cfg, s.slabs[id]);
  }

  lemma PublishSlabs(s: State)
    requires SlabsOkBut(s, None) && Linked(s.order, s.slabs) && PassOk(s) && s.pass.Some?
    ensures SlabsOkBut(Publish(s), None)
    ensures forall id :: id in s.pass.value ==>
        id in s.order && s.slabs[id].state.Reclaiming? && s.slabs[id].refcnt == 0
  {
    var s' := Publish(s);
    forall id ensures SlabAt(s.cfg, s.order, s'.slabs, None, id) {
      assert SlabAt(s.cfg, s.order, s.slabs, None, id);
    }
    forall id | id in s.pass.value ensures s.slabs[id].refcnt == 0 {
      assert SlabAt(s.cfg, s.order, s.slabs, None, id);
    }
  }

  /** Retaking the lock: the collected slabs are still RECLAIMING and empty, and become CLEAN. */
  lemma PublishKeeps(s: State)
    requires Inv(s) && s.pass.Some?
    ensures forall id :: id in s.pass.value ==>
        id in s.order && s.slabs[id].state.Reclaiming? && s.slabs[id].refcnt == 0
    ensures Inv(Publish(s)) && Outstanding(Publish(s)) == Outstanding(s)
  {
    var s' := Publish(s);
    PublishSlabs(s);
    forall id | id in s.slabs
      ensures s'.slabs[id].chunks == s.slabs[id].chunks && Used(s'.slabs[id]) == Used(s.slabs[id])
    {
    }
    ApartSame(s.slabs, s'.slabs);
    OutstandingSame(s, s');
    TallySame(s.order, s.order, s.slabs, s'.slabs);
  }

  // ---- umem_hash_rescale ----

  function Rescaled(s: State, n: nat): State
    requires n > 0
  {
    if s.cfg.unit > 0 then s.(table := AllocatedHash.Rescale(s.table, s.cfg.unit, n)) else s
  }

  lemma RescaleKeeps(s: State, n: nat)
    requires Inv(s) && s.cfg.hashed && n > 0
    ensures Inv(Rescaled(s, n)) && Outstanding(Rescaled(s, n)) == Outstanding(s)
  {
    AllocatedHash.RescaleKeeps(s.table, s.cfg.unit, n);
  }

  // ---- umem_cache_drain_slabs ----

  lemma DrainShape(s: State)
    requires Inv(s) && s.pass.None?
    ensures Inv(Drain(s)) && Outstanding(Drain(s)) == Outstanding(s)
  {
    var s' := Drain(s);
    FilterParked(s, InUse(s), s'.order, s'.freelist);
    forall id ensures SlabAt(s.cfg, s'.order, s.slabs, None, id) {
      assert SlabAt(s.cfg, s.order, s.slabs, None, id);
      if id in s.order && id !in s'.order { assert !InUse(s)(id); }
    }
  }

  lemma DrainMembers(s: State, id: SlabId)
    requires Inv(s) && id in s.order
    ensures id in Drain(s).order <==> Used(s.slabs[id]) != {}
  {
    assert SlabAt(s.cfg, s.order, s.slabs, None, id);
    UsedSize(s.slabs[id]);
    assert id in Drain(s).order <==> InUse(s)(id);
  }

  /** After the drain exactly the slabs with outstanding buffers remain linked. */
  lemma DrainKeeps(s: State)
    requires Inv(s) && s.pass.None?
    ensures Inv(Drain(s)) && Outstanding(Drain(s)) == Outstanding(s)
    ensures forall id :: id in Drain(s).order <==> id in s.order && Used(s.slabs[id]) != {}
  {
    DrainShape(s);
    forall id | id in s.order ensures id in Drain(s).order <==> Used(s.slabs[id]) != {} {
      DrainMembers(s, id);
    }
  }

  /** A cache none of whose buffers is outstanding gives back every slab. */
  lemma DrainEmpties(s: State)
    requires Inv(s) && Outstanding(s) == {}
    ensures Drain(s).order == [] && Drain(s).buftotal == 0
  {
    var s' := Drain(s);
    forall id | id in s.order ensures id !in s'.order {
      DrainMembers(s, id);
      assert forall a :: a in Used(s.slabs[id]) ==> a in Outstanding(s);
    }
    if s'.order != [] { HasMember(s'.order); assert false; }
    assert LinkedChunks([], s.slabs) == map[];
  }

  /** The buffers out of the slabs listed. */
  ghost function UsedBy(ids: seq<SlabId>, m: map<SlabId, Slab>): set<Addr> {
    set id, a | id in ids && id in m && a in Used(m[id]) :: a
  }

  /** The sum of their slab_refcnt. */
  function RefSum(ids: seq<SlabId>, m: map<SlabId, Slab>): int {
    if ids == [] then 0
    else
      var id := ids[|ids| - 1];
      RefSum(ids[..|ids| - 1], m) + if id in m then m[id].refcnt else 0
  }

  lemma RefSumLast(ids: seq<SlabId>, id: SlabId, m: map<SlabId, Slab>)
    ensures RefSum(ids + [id], m) == RefSum(ids, m) + if id in m then m[id].refcnt else 0
  {
    assert (ids + [id])[..|ids|] == ids;
  }

  lemma UsedByLast(ids: seq<SlabId>, id: SlabId, m: map<SlabId, Slab>)
    requires Apart(m) && id in m && id !in ids
    ensures UsedBy(ids + [id], m) == UsedBy(ids, m) + Used(m[id]) && UsedBy(ids, m) !! Used(m[id])
  {
    forall x, a | x in ids && x in m && a in Used(m[x]) ensures a !in Used(m[id]) { assert ApartAt(m, x, id); }
    forall a | a in UsedBy(ids, m) + Used(m[id]) ensures a in UsedBy(ids + [id], m) {
      if a in UsedBy(ids, m) {
        var x :| x in ids && x in m && a in Used(m[x]);
        assert x in ids + [id];
      } else {
        assert id in ids + [id];
      }
    }
  }

  ghost predicate CountedIn(m: map<SlabId, Slab>, id: SlabId) { id in m && Counted(m[id]) }

  lemma UsedIsRefcnt(m: map<SlabId, Slab>, id: SlabId)
    requires CountedIn(m, id)
    ensures |Used(m[id])| == m[id].refcnt
  {
    UsedSize(m[id]);
  }

  lemma {:induction false} RefSumExact(m: map<SlabId, Slab>, ids: seq<SlabId>)
    requires Apart(m) && NoDup(ids) && forall id :: id in ids ==> CountedIn(m, id)
    ensures RefSum(ids, m) == |UsedBy(ids, m)|
  {
    if ids == [] {
      assert UsedBy(ids, m) == {};
    } else {
      var p, id := ids[..|ids| - 1], ids[|ids| - 1];
      assert ids == p + [id] && id !in p;
      assert CountedIn(m, id);
      RefSumExact(m, p);
      UsedByLast(p, id, m);
      UsedIsRefcnt(m, id);
    }
  }

  /** What the drain adds up and reports is the number of outstanding buffers. */
  lemma ReportExact(s: State)
    requires Inv(s)
    ensures RefSum(s.order, s.slabs) == |Outstanding(s)|
  {
    forall id | id in s.order ensures CountedIn(s.slabs, id) { assert SlabAt(s.cfg, s.order, s.slabs, None, id); }
    RefSumExact(s.slabs, s.order);
    forall id, a | id in s.slabs && a in Used(s.slabs[id]) ensures id in s.order {
      assert SlabAt(s.cfg, s.order, s.slabs, None, id);
      UsedSize(s.slabs[id]);
    }
    assert UsedBy(s.order, s.slabs) == Outstanding(s);
  }

  // ---- every run ----

  /** The steps that neither hand out a buffer nor take one back. */
  ghost predicate QuietStep(s: State, s': State) {
    || (exists id, sp :: CanCreate(s, id, sp) && s' == Create(s, id, sp))
    || (exists id :: id in s.slabs && id !in s.order && s' == Destroy(s, id))
    || (s.pass.None? && exists l :: Collect(s, s', l))
    || (s.pass.Some? && s' == Publish(s))
    || (s.cfg.hashed && exists n: nat :: n > 0 && s' == Rescaled(s, n))
    || (s.pass.None? && Shaped(s) && s' == Drain(s))
  }

  lemma QuietKeeps(s: State, s': State)
    requires Inv(s) && QuietStep(s, s')
    ensures Inv(s') && Outstanding(s') == Outstanding(s)
  {
    if id, sp :| CanCreate(s, id, sp) && s' == Create(s, id, sp) {
      CreateKeeps(s, id, sp);
    } else if id :| id in s.slabs && id !in s.order && s' == Destroy(s, id) {
      DestroyKeeps(s, id);
    } else if l :| s.pass.None? && Collect(s, s', l) {
      CollectKeeps(s, s', l);
    } else if s.pass.Some? && s' == Publish(s) {
      PublishKeeps(s);
    } else if s.pass.None? && s' == Drain(s) {
      DrainKeeps(s);
    } else {
      var n: nat :| n > 0 && s' == Rescaled(s, n);
      RescaleKeeps(s, n);
    }
  }

  /** One hold of cache_lock (or one private create or destroy) by some thread. */
  ghost predicate Next(s: State, s': State) {
    && Shaped(s)
    && (|| (Target(s) < |s.order| && s' == Take(s, Target(s)).0)
        || (exists id :: LinkStep(s, s', id))
        || (exists a, retain :: MayFree(s, a) && s' == Free(s, a, retain))
        || QuietStep(s, s'))
  }

  ghost predicate LinkStep(s: State, s': State, id: SlabId)
    requires Shaped(s)
  {
    && id in s.slabs && id !in s.order && Created(s.slabs[id])
    && s.slabs[id].free != [] && s' == Take(Link(s, id), s.freelist).0
  }

  lemma NextKeeps(s: State, s': State)
    requires Inv(s) && Next(s, s')
    ensures Inv(s')
  {
    if Target(s) < |s.order| && s' == Take(s, Target(s)).0 {
      AllocKeeps(s);
    } else if id :| LinkStep(s, s', id) {
      LinkTakeKeeps(s, id);
    } else if a, retain :| MayFree(s, a) && s' == Free(s, a, retain) {
      FreeKeeps(s, a, retain);
    } else {
      QuietKeeps(s, s');
    }
  }

  /** A cache as umem_cache_create leaves it. */
  ghost predicate Init(s: State) {
    && ConfigOk(s.cfg) && s.slabs == map[] && s.order == [] && s.freelist == 0 && s.buftotal == 0
    && s.pass.None? && s.cfg.unit > 0 && |s.table| > 0
    && forall h :: 0 <= h < |s.table| ==> s.table[h] == []
  }

  lemma InitHolds(s: State)
    requires Init(s)
    ensures Inv(s) && Outstanding(s) == {}
  {
    assert LinkedChunks([], s.slabs) == map[];
  }

  ghost predicate Run(r: seq<State>) {
    && r != [] && Init(r[0])
    && forall i {:trigger r[i]} :: 0 < i < |r| ==> Next(r[i - 1], r[i])
  }

  /** The invariants hold in every state of every run of the slab layer. */
  lemma {:induction false} RunKeeps(r: seq<State>, k: nat)
    requires Run(r) && k < |r|
    ensures Inv(r[k])
  {
    if k == 0 {
      InitHolds(r[0]);
    } else {
      RunKeeps(r, k - 1);
      NextKeeps(r[k - 1], r[k]);
    }
  }
}
