/**
 * Every interleaving of every layer's steps, and what holds in every state it reaches: each
 * buffer is in exactly one place, and no allocation hands out a buffer already handed out.
 */
module MagazineRuns {
  import opened Collections
  import opened MagazineState
  import opened MagazineMoves
  import SlabLayer
  import SlabInvariants
  import CpuSteps
  import RseqSteps
  import ReturnSteps
  import ResizeSteps
  import ThreadSteps
  import SlabSteps

  datatype Step =
    | OnCpu(cpu: CpuSteps.CpuStep)
    | OnRseq(rseq: RseqSteps.RseqStep)
    | OnReturn(ret: ReturnSteps.ReturnStep)
    | OnResize(resize: ResizeSteps.ResizeStep)
    | OnThread(thread: ThreadSteps.ThreadStep)
    | OnSlab(slab: SlabSteps.SlabStep)

  ghost predicate Enabled(s: State, a: Step) {
    match a
    case OnCpu(c) => CpuSteps.CanStep(s, c)
    case OnRseq(c) => RseqSteps.CanStep(s, c)
    case OnReturn(c) => ReturnSteps.CanStep(s, c)
    case OnResize(c) => ResizeSteps.CanStep(s, c)
    case OnThread(c) => ThreadSteps.CanStep(s, c)
    case OnSlab(c) => SlabSteps.CanStep(s, c)
  }

  ghost function Apply(s: State, a: Step): State
    requires Enabled(s, a)
  {
    match a
    case OnCpu(c) => CpuSteps.Do(s, c)
    case OnRseq(c) => RseqSteps.Do(s, c)
    case OnReturn(c) => ReturnSteps.Do(s, c)
    case OnResize(c) => ResizeSteps.Do(s, c)
    case OnThread(c) => ThreadSteps.Do(s, c)
    case OnSlab(c) => SlabSteps.Do(s, c)
  }

  // ---- the invariant over every run ----

  /** No slab has a chunk at address zero, so a drained slot is never NULL. */
  lemma NullNotOut(s: SlabLayer.State)
    requires SlabLayer.Inv(s)
    ensures multiset(SlabLayer.Outstanding(s))[0] == 0
  {
    forall id | id in s.slabs ensures 0 !in s.slabs[id].chunks {
      assert SlabLayer.SlabAt(s.cfg, s.order, s.slabs, None, id);
    }
  }

  lemma ApplyKeeps(s: State, a: Step)
    requires Inv(s) && Enabled(s, a)
    ensures Inv(Apply(s, a))
  {
    var out := multiset(SlabLayer.Outstanding(s.slab));
    match a
    case OnCpu(c) => CpuSteps.StepKeeps(s, c, out); CpuSteps.SlabSame(s, c);
    case OnRseq(c) => RseqSteps.StepKeeps(s, c, out);
    case OnReturn(c) => NullNotOut(s.slab); ReturnSteps.StepKeeps(s, c, out);
    case OnResize(c) => ResizeSteps.StepKeeps(s, c, out);
    case OnThread(c) => ThreadSteps.StepKeeps(s, c, out); ThreadSteps.SlabSame(s, c);
    case OnSlab(c) => SlabSteps.StepKeeps(s, c);
  }

  /** A holder with no magazine and no buffer. */
  predicate Bare(p: Place, h: Holder, size: nat) {
    match h
    case List(mags) => (p.Full? || p.Empty?) && mags == []
    case Pair(a, b, n, k) => p.Cpu? && a == b == Pos(None, -1) && (n == 0 || n == size) && k.Unlocked?
    case Slot(a, _) => p.Rseq? && a.mag.None?
    case Ptc(bin, a, _, b, _, op) => p.Thr? && bin == [] && a == b == Pos(None, 0) && op.Ready?
    case Work(_) => false
  }

  /** A cache as umem_cache_create leaves it, for any number of CPUs, depot stripes, slots and threads. */
  ghost predicate Init(s: State) {
    && SlabInvariants.Init(s.slab) && s.client == {} && s.phase.Quiet?
    && (forall p :: p in s.hold ==> Bare(p, s.hold[p], SizeOf(s.magtype)))
    && (forall i: nat :: Cpu(i) in s.hold <==> i < s.ncpus)
  }

  lemma BareHolds(p: Place, h: Holder, size: nat)
    requires Bare(p, h, size)
    ensures Good(p, h, size) && Holds(p, h) == multiset{} && Shells(h) == multiset{}
  {
  }

  lemma InitHolds(s: State)
    requires Init(s)
    ensures Inv(s)
  {
    SlabInvariants.InitHolds(s.slab);
    forall p | p in s.hold ensures Good(p, s.hold[p], SizeOf(s.magtype))
      && Holds(p, s.hold[p]) == multiset{} && Shells(s.hold[p]) == multiset{}
    {
      BareHolds(p, s.hold[p], SizeOf(s.magtype));
    }
    PoolEmpty(HoldsAll(s.hold));
    PoolEmpty(ShellsAll(s.hold));
    forall p ensures PhaseAt(s.hold, s.ncpus, s.phase, p) {
      if p.Cpu? { assert Cpu(p.i) in s.hold <==> p.i < s.ncpus; }
    }
  }

  ghost predicate StepAt(r: seq<State>, steps: seq<Step>, i: nat)
    requires |r| == |steps| + 1 && i < |steps|
  {
    Enabled(r[i], steps[i]) && r[i + 1] == Apply(r[i], steps[i])
  }

  ghost predicate Run(r: seq<State>, steps: seq<Step>) {
    |r| == |steps| + 1 && Init(r[0]) && forall i :: 0 <= i < |steps| ==> StepAt(r, steps, i)
  }

  lemma StepInv(r: seq<State>, steps: seq<Step>, k: nat)
    requires |r| == |steps| + 1 && 0 < k < |r| && StepAt(r, steps, k - 1) && Inv(r[k - 1])
    ensures Inv(r[k])
  {
    ApplyKeeps(r[k - 1], steps[k - 1]);
  }

  /** Every state of every run satisfies the invariant. */
  lemma {:induction false} RunKeeps(r: seq<State>, steps: seq<Step>, k: nat)
    requires Run(r, steps) && k < |r|
    ensures Inv(r[k])
  {
    if k == 0 {
      InitHolds(r[0]);
    } else {
      RunKeeps(r, steps, k - 1);
      StepInv(r, steps, k);
    }
  }

  // ---- what the invariant says ----

  /** How often `a` is held above the slab layer. */
  ghost function Copies(s: State, a: Addr): nat { Everything(s)[a] }

  /**
   * A chunk of a slab is on that slab's freelist and held by no one, or off it and held
   * exactly once; and nothing that is not a chunk of some slab is held at all.
   */
  lemma ChunkInOnePlace(r: seq<State>, steps: seq<Step>, k: nat, id: SlabLayer.SlabId, a: Addr)
    requires Run(r, steps) && k < |r| && id in r[k].slab.slabs && a in r[k].slab.slabs[id].chunks
    ensures Copies(r[k], a) == if a in r[k].slab.slabs[id].free then 0 else 1
  {
    RunKeeps(r, steps, k);
    var s := r[k];
    assert CountedAt(s, multiset{}, multiset(SlabLayer.Outstanding(s.slab)), a);
    forall x | x in s.slab.slabs && a in SlabLayer.Used(s.slab.slabs[x]) ensures x == id {
      assert SlabLayer.ApartAt(s.slab.slabs, x, id);
    }
    assert a in SlabLayer.Outstanding(s.slab) <==> a in SlabLayer.Used(s.slab.slabs[id]);
  }

  lemma HeldIsChunk(r: seq<State>, steps: seq<Step>, k: nat, a: Addr)
    requires Run(r, steps) && k < |r| && Copies(r[k], a) > 0
    ensures exists id :: id in r[k].slab.slabs && a in SlabLayer.Used(r[k].slab.slabs[id])
  {
    RunKeeps(r, steps, k);
    var s := r[k];
    assert CountedAt(s, multiset{}, multiset(SlabLayer.Outstanding(s.slab)), a);
    assert a in SlabLayer.Outstanding(s.slab);
  }

  /** The buffer a step returns to an allocating caller. */
  ghost function Issued(s: State, a: Step): Option<Addr>
    requires Inv(s) && Enabled(s, a)
  {
    match a
    case OnCpu(CpuTake(i)) =>
      CpuSteps.TakeKeeps(s, i, multiset(SlabLayer.Outstanding(s.slab)));
      Some(PopPos(CpuAt(s, i).loaded).1)
    case OnRseq(RseqTake(i)) => Some(PopPos(SlotOf(s, i).pos).1)
    case OnThread(BinTake(t)) => Some(ThrAt(s, t).bin[|ThrAt(s, t).bin| - 1])
    case OnThread(MagTake(t)) =>
      ThreadSteps.MagTakeKeeps(s, t, multiset(SlabLayer.Outstanding(s.slab)));
      Some(PopPos(ThrAt(s, t).load).1)
    case OnSlab(SlabTake) => Some(SlabSteps.Taken(s, a.slab).1)
    case OnSlab(SlabLink(id)) => Some(SlabSteps.Taken(s, a.slab).1)
    case _ => None
  }

  lemma ClientChange(s: State, a: Step)
    requires Inv(s) && Enabled(s, a)
    ensures match Issued(s, a)
            case Some(b) => Apply(s, a).client == s.client + {b}
            case None => Apply(s, a).client <= s.client
  {
    var out := multiset(SlabLayer.Outstanding(s.slab));
    match a
    case OnCpu(c) => CpuSteps.SlabSame(s, c); if c.CpuTake? { CpuSteps.TakeKeeps(s, c.i, out); }
    case OnThread(c) => ThreadSteps.SlabSame(s, c); if c.MagTake? { ThreadSteps.MagTakeKeeps(s, c.t, out); }
    case _ =>
  }

  lemma IssuedFresh(s: State, a: Step)
    requires Inv(s) && Enabled(s, a) && Issued(s, a).Some?
    ensures Issued(s, a).value !in s.client
  {
    var out := multiset(SlabLayer.Outstanding(s.slab));
    match a
    case OnCpu(CpuTake(i)) => CpuSteps.TakeKeeps(s, i, out);
    case OnRseq(RseqTake(i)) => RseqSteps.TakeKeeps(s, i, out);
    case OnThread(BinTake(t)) => ThreadSteps.BinTakeKeeps(s, t, out);
    case OnThread(MagTake(t)) => ThreadSteps.MagTakeKeeps(s, t, out);
    case OnSlab(c) => SlabSteps.TakeKeeps(s, c);
  }

  /**
   * No allocation, by whatever layer, returns a buffer the application still holds, and
   * after it the buffer is the application's alone.
   */
  lemma NoDoubleIssue(r: seq<State>, steps: seq<Step>, k: nat)
    requires Run(r, steps) && k < |steps|
    ensures Inv(r[k]) && Enabled(r[k], steps[k])
    ensures match Issued(r[k], steps[k])
            case Some(b) =>
              && b !in r[k].client && r[k + 1].client == r[k].client + {b}
              && Rounds(r[k + 1])[b] == 0
            case None => r[k + 1].client <= r[k].client
  {
    RunKeeps(r, steps, k);
    RunKeeps(r, steps, k + 1);
    assert StepAt(r, steps, k);
    var s, s', a := r[k], r[k + 1], steps[k];
    ClientChange(s, a);
    if Issued(s, a).Some? {
      var b := Issued(s, a).value;
      IssuedFresh(s, a);
      assert CountedAt(s', multiset{}, multiset(SlabLayer.Outstanding(s'.slab)), b);
    }
  }

  // ---- shells ----

  /** A magazine shell is held in one place only: no two layers ever own the same magazine. */
  lemma ShellInOnePlace(r: seq<State>, steps: seq<Step>, k: nat, p: Place, q: Place, id: nat)
    requires Run(r, steps) && k < |r| && p in r[k].hold && q in r[k].hold && p != q
    requires id in Shells(r[k].hold[p])
    ensures id !in Shells(r[k].hold[q]) && Shells(r[k].hold[p])[id] == 1
  {
    RunKeeps(r, steps, k);
    var hold := r[k].hold;
    assert ShellAt(hold, multiset{}, id);
    PoolPair(ShellsAll(hold), p, q);
  }

  /** Only the holder at `p` has shell `id`. */
  ghost predicate OnlyAt(hold: Holders, p: Place, id: nat) {
    p in hold && id in Shells(hold[p]) && forall q :: q in hold && q != p ==> id !in Shells(hold[q])
  }

  /**
   * The reload of a slot: a commit gives the new magazine to that slot, with all of it or
   * none of it live against its own capacity; a failed one leaves it with the caller.
   */
  lemma ReloadOwner(r: seq<State>, steps: seq<Step>, i: nat)
    requires Run(r, steps) && i < |steps|
    requires steps[i].OnRseq? && (steps[i].rseq.Attach? || steps[i].rseq.AttachAbort?)
    ensures
      var c := steps[i].rseq;
      StepAt(r, steps, i) && var j := JobAt(r[i], c.k);
      if c.Attach? then
        && IsSlot(r[i + 1], j.cpu) && SlotOf(r[i + 1], j.cpu) == RseqSteps.Published(j.full, j.mag)
        && OnlyAt(r[i + 1].hold, Rseq(j.cpu), j.mag.id)
      else
        && IsJob(r[i + 1], c.k) && JobAt(r[i + 1], c.k) == Arming(j.full, j.mag, j.tries + 1)
        && OnlyAt(r[i + 1].hold, InFlight(c.k), j.mag.id)
  {
    var c := steps[i].rseq;
    assert StepAt(r, steps, i);
    var j := JobAt(r[i], c.k);
    var p := if c.Attach? then Rseq(j.cpu) else InFlight(c.k);
    var hold := r[i + 1].hold;
    assert r[i + 1] == Apply(r[i], steps[i]);
    assert p in hold && j.mag.id in Shells(hold[p]);
    forall q | q in hold && q != p ensures j.mag.id !in Shells(hold[q]) {
      ShellInOnePlace(r, steps, i + 1, p, q, j.mag.id);
    }
  }

  // ---- magazines ----

  lemma {:induction false} ListHas(mags: seq<Mag>, i: nat)
    requires i < |mags|
    ensures multiset(mags[i].slots) <= ListLive(mags)
  {
    if i > 0 { ListHas(mags[1..], i - 1); }
  }

  /**
   * Every slot of a magazine on a full list, stale shells included, is a buffer the slab layer
   * has out, in no other slot and not the application's.
   */
  lemma FullListIsFull(r: seq<State>, steps: seq<Step>, k: nat, l: nat, i: nat, n: nat)
    requires Run(r, steps) && k < |r| && IsList(r[k], true, l) && i < |MagsAt(r[k], true, l)|
    requires n < |MagsAt(r[k], true, l)[i].slots|
    ensures var slots := MagsAt(r[k], true, l)[i].slots;
            && slots[n] in SlabLayer.Outstanding(r[k].slab) && slots[n] !in r[k].client
            && multiset(slots)[slots[n]] == 1
  {
    RunKeeps(r, steps, k);
    var s := r[k];
    var m := MagsAt(s, true, l)[i];
    var b := m.slots[n];
    ListHas(MagsAt(s, true, l), i);
    PoolHas(HoldsAll(s.hold), Full(l));
    assert b in multiset(m.slots);
    assert CountedAt(s, multiset{}, multiset(SlabLayer.Outstanding(s.slab)), b);
  }

  /**
   * Every CPU's pair, in every state: magazines of the CPU's own magsize, the previous one
   * exactly empty or exactly full, both absent while the layer is off.
   */
  lemma PairsOk(r: seq<State>, steps: seq<Step>, k: nat, i: nat)
    requires Run(r, steps) && k < |r| && i < r[k].ncpus
    ensures IsCpu(r[k], i) && PairOk(CpuAt(r[k], i), SizeOf(r[k].magtype))
    ensures CpuAt(r[k], i).magsize == 0 ==> CpuAt(r[k], i).loaded.mag.None? && CpuAt(r[k], i).prev.mag.None?
  {
    RunKeeps(r, steps, k);
    assert GoodAt(r[k].hold, Cpu(i), SizeOf(r[k].magtype));
    assert PhaseAt(r[k].hold, r[k].ncpus, r[k].phase, Cpu(i));
  }

  /** The assertions of umem_cpu_reload hold whenever any run reaches it. */
  lemma ReloadsAsserted(r: seq<State>, steps: seq<Step>, k: nat)
    requires Run(r, steps) && k < |steps|
    requires steps[k].OnCpu? && (steps[k].cpu.CpuSwap? || steps[k].cpu.CpuInstall?)
    ensures
      StepAt(r, steps, k) && var h := CpuAt(r[k], steps[k].cpu.i);
      CpuSteps.ReloadAsserts(h, if steps[k].cpu.CpuSwap? then h.prev.rounds
                                else if h.lock.full then h.magsize else 0)
  {
    RunKeeps(r, steps, k);
    assert StepAt(r, steps, k);
    var s, c := r[k], steps[k].cpu;
    if c.CpuSwap? {
      CpuSteps.SwapKeeps(s, c.i, multiset(SlabLayer.Outstanding(s.slab)));
    } else {
      assert GoodAt(s.hold, Cpu(c.i), SizeOf(s.magtype));
      CpuSteps.InstallPair(CpuAt(s, c.i), SizeOf(s.magtype));
    }
  }
}
