/**
 * The update thread's resize: purge every CPU, change the magtype, enable every CPU.  Each CPU
 * is purged and enabled in a hold of its own cc_lock, so the other layers go on in between;
 * `phase` says how many CPUs are done.  What the purge takes from a pair is destroyed as an
 * operation in flight, with the counts the pair had for it, and magazines of the old size that
 * are elsewhere stay where they are until someone finds them stale.
 */
module ResizeSteps {
  import opened Collections
  import opened MagazineState
  import opened MagazineMoves

  datatype ResizeStep =
    | ResizeStart
    | PurgeCpu(k1: nat, k2: nat)
    | SetMagtype
    | EnableCpu
    | ResizeDone

  predicate CanStep(s: State, a: ResizeStep) {
    match a
    case ResizeStart => s.phase.Quiet? && s.magtype + 1 < |MAGSIZES|
    case PurgeCpu(k1, k2) =>
      && s.phase.Purging? && s.phase.k < s.ncpus && IsCpu(s, s.phase.k) && CpuAt(s, s.phase.k).lock.Unlocked?
      && Unused(s, k1) && Unused(s, k2) && k1 != k2
    case SetMagtype => s.phase == Purging(s.ncpus)
    case EnableCpu =>
      s.phase.Enabling? && s.phase.k < s.ncpus && IsCpu(s, s.phase.k) && CpuAt(s, s.phase.k).lock.Unlocked?
    case ResizeDone => s.phase == Enabling(s.ncpus)
  }

  const Absent: Pos := Pos(None, -1)

  /** The magazines a purge takes off a CPU are destroyed with the counts the CPU had. */
  function Taken(s: State, k: nat, p: Pos): State {
    if p.mag.Some? then PutJob(s, k, Destroying(p.mag.value, p.rounds, 0)) else s
  }

  function Purged(s: State, k1: nat, k2: nat): State
    requires CanStep(s, PurgeCpu(k1, k2))
  {
    var k := s.phase.k;
    var h := CpuAt(s, k);
    var s1 := Put(s, Cpu(k), Pair(Absent, Absent, 0, Unlocked)).(phase := Purging(k + 1));
    Taken(Taken(s1, k1, h.loaded), k2, h.prev)
  }

  function Enabled(s: State): State
    requires CanStep(s, EnableCpu)
  {
    var k := s.phase.k;
    var h := CpuAt(s, k);
    Put(s, Cpu(k), Pair(h.loaded, h.prev, SizeOf(s.magtype), h.lock)).(phase := Enabling(k + 1))
  }

  function Do(s: State, a: ResizeStep): State
    requires CanStep(s, a)
  {
    match a
    case ResizeStart => s.(phase := Purging(0))
    case PurgeCpu(k1, k2) => Purged(s, k1, k2)
    case SetMagtype => s.(magtype := s.magtype + 1, phase := Enabling(0))
    case EnableCpu => Enabled(s)
    case ResizeDone => s.(phase := Quiet)
  }

  // ---- every step keeps the invariant ----

  /** A step that only moves the update thread on. */
  lemma PhaseKeeps(s: State, ph: Phase, out: multiset<Addr>)
    requires Upper(s, out) && (ph.Quiet? || ph.k <= s.ncpus)
    requires forall p :: PhaseAt(s.hold, s.ncpus, ph, p)
    ensures Upper(s.(phase := ph), out)
  {
    forall b ensures CountedAt(s.(phase := ph), multiset{}, out, b) {
      assert CountedAt(s, multiset{}, out, b);
    }
  }

  /** When every CPU is off, no pair depends on the magtype. */
  lemma OffGood(p: Place, h: Holder, size: nat, size': nat)
    requires Good(p, h, size) && (p.Cpu? && h.Pair? ==> h.magsize == 0)
    ensures Good(p, h, size')
  {
  }

  lemma MagtypeKeeps(s: State, out: multiset<Addr>)
    requires Upper(s, out) && CanStep(s, SetMagtype)
    ensures Upper(Do(s, SetMagtype), out)
  {
    var s' := Do(s, SetMagtype);
    forall p ensures GoodAt(s'.hold, p, SizeOf(s'.magtype)) && PhaseAt(s'.hold, s'.ncpus, s'.phase, p) {
      assert GoodAt(s.hold, p, SizeOf(s.magtype)) && PhaseAt(s.hold, s.ncpus, s.phase, p);
      if p in s.hold { OffGood(p, s.hold[p], SizeOf(s.magtype), SizeOf(s'.magtype)); }
    }
    forall b ensures CountedAt(s', multiset{}, out, b) {
      assert CountedAt(s, multiset{}, out, b);
    }
  }

  /** Changing one CPU's pair and moving the update thread past it, in one step. */
  lemma CpuMoves(s: State, h: Holder, ph: Phase, hand: multiset<Addr>, sh: multiset<nat>, out: multiset<Addr>)
    requires Upper(s, out) && !s.phase.Quiet? && IsCpu(s, s.phase.k) && s.phase.k < s.ncpus
    requires ph == (if s.phase.Purging? then Purging(s.phase.k + 1) else Enabling(s.phase.k + 1))
    requires h.Pair? && (s.phase.Purging? ==> h.magsize == 0)
    requires Good(Cpu(s.phase.k), h, SizeOf(s.magtype))
    requires Holds(Cpu(s.phase.k), h) + hand == Was(s, Cpu(s.phase.k))
    requires Shells(h) + sh == WasShells(s, Cpu(s.phase.k))
    ensures Above(Put(s, Cpu(s.phase.k), h).(phase := ph), hand, sh, out)
  {
    var p := Cpu(s.phase.k);
    var s' := Put(s, p, h).(phase := ph);
    PutTotals(s, p, h);
    PutGood(s, p, h);
    forall q ensures PhaseAt(s'.hold, s'.ncpus, s'.phase, q) {
      assert PhaseAt(s.hold, s.ncpus, s.phase, q);
    }
    Recounted(s, s', Was(s, p), Holds(p, h), multiset{}, hand, out);
    ShellsRecounted(s, s', WasShells(s, p), Shells(h), multiset{}, sh);
  }

  lemma TakenKeeps(s: State, k: nat, p: Pos, size: nat,
                   hand: multiset<Addr>, sh: multiset<nat>, out: multiset<Addr>)
    requires Above(s, PosLive(p) + hand, PosShell(p) + sh, out) && PosOk(p, size) && Unused(s, k)
    ensures Above(Taken(s, k, p), hand, sh, out)
  {
    if p.mag.Some? {
      Edit(s, InFlight(k), Work(Destroying(p.mag.value, p.rounds, 0)),
           PosLive(p) + hand, PosShell(p) + sh, hand, sh, out);
    } else {
      assert PosLive(p) + hand == hand && PosShell(p) + sh == sh;
    }
  }

  lemma PurgeOff(s: State, out: multiset<Addr>)
    requires Upper(s, out) && s.phase.Purging? && s.phase.k < s.ncpus
    requires IsCpu(s, s.phase.k) && CpuAt(s, s.phase.k).lock.Unlocked?
    ensures
      var k := s.phase.k;
      var h := CpuAt(s, k);
      && PosOk(h.loaded, h.magsize) && PosOk(h.prev, h.magsize)
      && Above(Put(s, Cpu(k), Pair(Absent, Absent, 0, Unlocked)).(phase := Purging(k + 1)),
               PosLive(h.loaded) + PosLive(h.prev), PosShell(h.loaded) + PosShell(h.prev), out)
  {
    var k := s.phase.k;
    var h := CpuAt(s, k);
    assert GoodAt(s.hold, Cpu(k), SizeOf(s.magtype));
    CpuMoves(s, Pair(Absent, Absent, 0, Unlocked), Purging(k + 1), PosLive(h.loaded) + PosLive(h.prev),
             PosShell(h.loaded) + PosShell(h.prev), out);
  }

  lemma PurgeKeeps(s: State, k1: nat, k2: nat, out: multiset<Addr>)
    requires Upper(s, out) && CanStep(s, PurgeCpu(k1, k2))
    ensures Upper(Purged(s, k1, k2), out)
  {
    var k := s.phase.k;
    var h := CpuAt(s, k);
    PurgeOff(s, out);
    var s1 := Put(s, Cpu(k), Pair(Absent, Absent, 0, Unlocked)).(phase := Purging(k + 1));
    TakenKeeps(s1, k1, h.loaded, h.magsize, PosLive(h.prev), PosShell(h.prev), out);
    LastTaken(Taken(s1, k1, h.loaded), k2, h.prev, h.magsize, out);
  }

  lemma LastTaken(s: State, k: nat, p: Pos, size: nat, out: multiset<Addr>)
    requires Above(s, PosLive(p), PosShell(p), out) && PosOk(p, size) && Unused(s, k)
    ensures Upper(Taken(s, k, p), out)
  {
    assert PosLive(p) + multiset{} == PosLive(p) && PosShell(p) + multiset{} == PosShell(p);
    TakenKeeps(s, k, p, size, multiset{}, multiset{}, out);
  }

  lemma EnableKeeps(s: State, out: multiset<Addr>)
    requires Upper(s, out) && CanStep(s, EnableCpu)
    ensures Upper(Enabled(s), out)
  {
    var k := s.phase.k;
    var h := CpuAt(s, k);
    assert GoodAt(s.hold, Cpu(k), SizeOf(s.magtype)) && PhaseAt(s.hold, s.ncpus, s.phase, Cpu(k));
    CpuMoves(s, Pair(h.loaded, h.prev, SizeOf(s.magtype), h.lock), Enabling(k + 1), multiset{}, multiset{}, out);
  }

  lemma StepKeeps(s: State, a: ResizeStep, out: multiset<Addr>)
    requires Upper(s, out) && CanStep(s, a)
    ensures Upper(Do(s, a), out)
  {
    match a
    case ResizeStart =>
      forall p ensures PhaseAt(s.hold, s.ncpus, Purging(0), p) { assert PhaseAt(s.hold, s.ncpus, s.phase, p); }
      PhaseKeeps(s, Purging(0), out);
    case PurgeCpu(k1, k2) => PurgeKeeps(s, k1, k2, out);
    case SetMagtype => MagtypeKeeps(s, out);
    case EnableCpu => EnableKeeps(s, out);
    case ResizeDone =>
      forall p ensures PhaseAt(s.hold, s.ncpus, Quiet, p) { assert PhaseAt(s.hold, s.ncpus, s.phase, p); }
      PhaseKeeps(s, Quiet, out);
  }
}
