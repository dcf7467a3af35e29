/**
 * Where the magazine layers meet the slab layer and the application: a buffer taken from a
 * slab becomes the application's, a buffer the application gives up goes into an operation in
 * flight until some layer takes it, and one that reaches the slab layer is freed there.  The
 * other critical sections of the slab layer, which hand out nothing and take nothing back, may
 * come at any moment.
 */
module SlabSteps {
  import opened Collections
  import opened MagazineState
  import opened MagazineMoves
  import SlabLayer
  import SlabInvariants

  datatype SlabStep =
    | ClientFree(b: Addr, k: nat)
    | SlabTake
    | SlabLink(id: SlabLayer.SlabId)
    | SlabFree(k: nat, retain: bool)
    | SlabQuiet(after: SlabLayer.State)

  /** The application frees only what it holds; the other guards are the code's. */
  ghost predicate CanStep(s: State, a: SlabStep) {
    SlabLayer.Shaped(s.slab) &&
    match a
    case ClientFree(b, k) => b in s.client && Unused(s, k)
    case SlabTake => SlabLayer.Target(s.slab) < |s.slab.order|
    case SlabLink(id) => id in s.slab.slabs && id !in s.slab.order && SlabLayer.Created(s.slab.slabs[id])
    case SlabFree(k, _) => IsJob(s, k) && JobAt(s, k).Freeing?
    case SlabQuiet(after) => SlabInvariants.QuietStep(s.slab, after)
  }

  ghost function Taken(s: State, a: SlabStep): (SlabLayer.State, Addr)
    requires CanStep(s, a) && (a.SlabTake? || a.SlabLink?)
  {
    if a.SlabTake? then SlabLayer.Take(s.slab, SlabLayer.Target(s.slab))
    else SlabLayer.Take(SlabLayer.Link(s.slab, a.id), s.slab.freelist)
  }

  ghost function Do(s: State, a: SlabStep): State
    requires CanStep(s, a)
  {
    match a
    case ClientFree(b, k) => PutJob(s.(client := s.client - {b}), k, Freeing(b))
    case SlabTake => s.(slab := Taken(s, a).0, client := s.client + {Taken(s, a).1})
    case SlabLink(id) => s.(slab := Taken(s, a).0, client := s.client + {Taken(s, a).1})
    case SlabFree(k, retain) => DropJob(s, k).(slab := SlabLayer.Free(s.slab, JobAt(s, k).buf, retain))
    case SlabQuiet(after) => s.(slab := after)
  }

  // ---- every step keeps the invariant ----

  ghost function Out(slab: SlabLayer.State): multiset<Addr> { multiset(SlabLayer.Outstanding(slab)) }

  lemma Granted(s: State, slab: SlabLayer.State, b: Addr, out: multiset<Addr>)
    requires Upper(s, out) && b !in out
    ensures b !in s.client && Upper(s.(slab := slab, client := s.client + {b}), out + multiset{b})
  {
    assert CountedAt(s, multiset{}, out, b);
    var s' := s.(slab := slab, client := s.client + {b});
    forall x ensures CountedAt(s', multiset{}, out + multiset{b}, x) {
      assert CountedAt(s, multiset{}, out, x);
    }
  }

  lemma TakeGives(s: State, a: SlabStep)
    requires SlabLayer.Inv(s.slab) && CanStep(s, a) && (a.SlabTake? || a.SlabLink?)
    ensures SlabLayer.Inv(Taken(s, a).0) && Taken(s, a).1 !in SlabLayer.Outstanding(s.slab)
    ensures Out(Taken(s, a).0) == Out(s.slab) + multiset{Taken(s, a).1}
  {
    if a.SlabTake? { SlabInvariants.AllocKeeps(s.slab); } else { SlabInvariants.LinkTakeKeeps(s.slab, a.id); }
  }

  lemma TakeKeeps(s: State, a: SlabStep)
    requires Inv(s) && CanStep(s, a) && (a.SlabTake? || a.SlabLink?)
    ensures Inv(Do(s, a)) && Taken(s, a).1 !in s.client
  {
    TakeGives(s, a);
    Granted(s, Taken(s, a).0, Taken(s, a).1, Out(s.slab));
  }

  lemma Retired(s: State, slab: SlabLayer.State, b: Addr, out: multiset<Addr>)
    requires Above(s, multiset{b}, multiset{}, out)
    ensures b in out && Upper(s.(slab := slab), out - multiset{b})
  {
    assert CountedAt(s, multiset{b}, out, b);
    forall x ensures CountedAt(s.(slab := slab), multiset{}, out - multiset{b}, x) {
      assert CountedAt(s, multiset{b}, out, x);
    }
  }

  /** A buffer that reaches the slab layer is always one the slab layer has out. */
  lemma FreeKeeps(s: State, k: nat, retain: bool)
    requires Inv(s) && CanStep(s, SlabFree(k, retain))
    ensures JobAt(s, k).buf in SlabLayer.Outstanding(s.slab) && Inv(Do(s, SlabFree(k, retain)))
  {
    var b := JobAt(s, k).buf;
    EndJob(s, k, Out(s.slab));
    var slab' := SlabLayer.Free(s.slab, b, retain);
    Retired(DropJob(s, k), slab', b, Out(s.slab));
    SlabInvariants.FreeKeeps(s.slab, b, retain);
    assert Out(slab') == Out(s.slab) - multiset{b};
  }

  lemma QuietKeeps(s: State, slab: SlabLayer.State, out: multiset<Addr>)
    requires Upper(s, out)
    ensures Upper(s.(slab := slab), out)
  {
    forall x ensures CountedAt(s.(slab := slab), multiset{}, out, x) {
      assert CountedAt(s, multiset{}, out, x);
    }
  }

  lemma StepKeeps(s: State, a: SlabStep)
    requires Inv(s) && CanStep(s, a)
    ensures Inv(Do(s, a))
  {
    match a
    case ClientFree(b, k) =>
      FromClient(s, b, Out(s.slab));
      StartJob(s.(client := s.client - {b}), k, Freeing(b), Out(s.slab));
    case SlabTake => TakeKeeps(s, a);
    case SlabLink(_) => TakeKeeps(s, a);
    case SlabFree(k, retain) => FreeKeeps(s, k, retain);
    case SlabQuiet(after) =>
      SlabInvariants.QuietKeeps(s.slab, after);
      QuietKeeps(s, after, Out(s.slab));
  }
}
