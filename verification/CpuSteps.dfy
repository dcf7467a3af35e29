/**
 * The CPU layer: the loaded/previous magazine pair of a CPU, under its cc_lock.  Dropping the
 * lock for the depot and taking it again are two steps, so everything else may happen in
 * between.  A lemma on a Pair speaks of the holder alone, one ending in Lets or Gets of a
 * holder giving up or receiving a share, and one ending in Keeps of a whole step and the
 * invariant over the cache.
 */
module CpuSteps {
  import opened Collections
  import opened MagazineState
  import opened MagazineMoves
  import SlabLayer

  datatype CpuStep =
    | CpuTake(i: nat)
    | CpuPut(i: nat, k: nat)
    | CpuSwap(i: nat)
    | CpuWant(i: nat, full: bool)
    | CpuPop(i: nat, l: nat)
    | CpuReject(i: nat, k: nat)
    | CpuInstall(i: nat, l: nat)
    | CpuGiveUp(i: nat)
    | CpuFresh(i: nat, k: nat, id: nat)
    | FreshKeep(k: nat, l: nat)
    | FreshDrop(k: nat)

  /** umem_cpu_reload. */
  function Reload(h: Holder, m: Mag, n: int): Holder
    requires h.Pair?
  {
    h.(prev := h.loaded, loaded := Pos(Some(m), n), lock := Unlocked)
  }

  /** The two assertions of umem_cpu_reload. */
  predicate ReloadAsserts(h: Holder, n: int)
    requires h.Pair?
  {
    && (if h.loaded.mag.None? then h.loaded.rounds == -1 else h.loaded.rounds + n == h.magsize)
    && h.magsize > 0
  }

  /** The previous magazine is taken when the loaded one is spent, or filled, and it is the opposite. */
  predicate SwapGuard(h: Holder)
    requires h.Pair?
  {
    || (h.loaded.rounds <= 0 && h.prev.rounds > 0)
    || (!HasRoom(h.loaded, h.magsize) && h.prev.rounds == 0)
  }

  ghost predicate CanStep(s: State, a: CpuStep) {
    match a
    case CpuTake(i) => IsCpu(s, i) && CpuAt(s, i).lock.Unlocked? && CpuAt(s, i).loaded.rounds > 0
    case CpuPut(i, k) =>
      && IsCpu(s, i) && CpuAt(s, i).lock.Unlocked? && HasRoom(CpuAt(s, i).loaded, CpuAt(s, i).magsize)
      && IsJob(s, k) && JobAt(s, k).Freeing?
    case CpuSwap(i) => IsCpu(s, i) && CpuAt(s, i).lock.Unlocked? && SwapGuard(CpuAt(s, i))
    case CpuWant(i, full) => IsCpu(s, i) && CpuAt(s, i).lock.Unlocked? && LockedFor(CpuAt(s, i), full)
    case CpuPop(i, l) => IsCpu(s, i) && CpuAt(s, i).lock.Wants? && CanPop(s, CpuAt(s, i).lock.full, l)
    case CpuReject(i, k) =>
      IsCpu(s, i) && CpuAt(s, i).lock.Has? && !IsValid(s, CpuAt(s, i).lock.mag) && Unused(s, k)
    case CpuInstall(i, l) =>
      && IsCpu(s, i) && CpuAt(s, i).lock.Has? && IsValid(s, CpuAt(s, i).lock.mag)
      && (CpuAt(s, i).prev.mag.Some? ==> IsList(s, !CpuAt(s, i).lock.full, l))
    case CpuGiveUp(i) => IsCpu(s, i) && CpuAt(s, i).lock.Wants?
    case CpuFresh(i, k, id) =>
      IsCpu(s, i) && CpuAt(s, i).lock == Wants(false) && Unused(s, k) && id !in EveryShell(s.hold)
    case FreshKeep(k, l) =>
      && IsJob(s, k) && JobAt(s, k).Fresh? && IsCpu(s, JobAt(s, k).cpu) && IsList(s, false, l)
      && CpuAt(s, JobAt(s, k).cpu).lock.Unlocked?
      && CpuAt(s, JobAt(s, k).cpu).magsize == |JobAt(s, k).mag.slots|
    case FreshDrop(k) =>
      && IsJob(s, k) && JobAt(s, k).Fresh? && IsCpu(s, JobAt(s, k).cpu)
      && CpuAt(s, JobAt(s, k).cpu).lock.Unlocked?
      && CpuAt(s, JobAt(s, k).cpu).magsize != |JobAt(s, k).mag.slots|
  }

  // ---- what each step does ----

  function DoTake(s: State, i: nat): State
    requires IsCpu(s, i)
  {
    var h := CpuAt(s, i);
    if h.loaded.mag.None? then s
    else
      var (a, b) := PopPos(h.loaded);
      Put(s, Cpu(i), h.(loaded := a)).(client := s.client + {b})
  }

  function DoPut(s: State, i: nat, k: nat): State
    requires IsCpu(s, i) && IsJob(s, k) && JobAt(s, k).Freeing?
  {
    var h := CpuAt(s, i);
    if h.loaded.mag.None? then s
    else Put(DropJob(s, k), Cpu(i), h.(loaded := PushPos(h.loaded, JobAt(s, k).buf)))
  }

  function DoSwap(s: State, i: nat): State
    requires IsCpu(s, i)
  {
    var h := CpuAt(s, i);
    if h.prev.mag.None? then s else Put(s, Cpu(i), Reload(h, h.prev.mag.value, h.prev.rounds))
  }

  function DoInstall(s: State, i: nat, l: nat): State
    requires IsCpu(s, i) && CpuAt(s, i).lock.Has?
    requires CpuAt(s, i).prev.mag.Some? ==> IsList(s, !CpuAt(s, i).lock.full, l)
  {
    var h := CpuAt(s, i);
    var s1 := if h.prev.mag.Some? then PushOn(s, !h.lock.full, l, h.prev.mag.value) else s;
    Put(s1, Cpu(i), Reload(h, h.lock.mag, if h.lock.full then h.magsize else 0))
  }

  ghost function Do(s: State, a: CpuStep): State
    requires CanStep(s, a)
  {
    match a
    case CpuTake(i) => DoTake(s, i)
    case CpuPut(i, k) => DoPut(s, i, k)
    case CpuSwap(i) => DoSwap(s, i)
    case CpuWant(i, full) => Put(s, Cpu(i), CpuAt(s, i).(lock := Wants(full)))
    case CpuPop(i, l) =>
      var full := CpuAt(s, i).lock.full;
      Put(PopOff(s, full, l), Cpu(i), CpuAt(s, i).(lock := Has(full, Top(s, full, l))))
    case CpuReject(i, k) =>
      var h := CpuAt(s, i);
      PutJob(Put(s, Cpu(i), h.(lock := Wants(h.lock.full))), k, Stale(h.lock.full, h.lock.mag, 0))
    case CpuInstall(i, l) => DoInstall(s, i, l)
    case CpuGiveUp(i) => Put(s, Cpu(i), CpuAt(s, i).(lock := Unlocked))
    case CpuFresh(i, k, id) =>
      PutJob(Put(s, Cpu(i), CpuAt(s, i).(lock := Unlocked)), k, Fresh(Blank(id, SizeOf(s.magtype)), i))
    case FreshKeep(k, l) => PushOn(DropJob(s, k), false, l, JobAt(s, k).mag)
    case FreshDrop(k) => PutJob(s, k, Shell(JobAt(s, k).mag))
  }

  // ---- what a step does to the pair ----

  lemma TakePair(p: Place, h: Holder, size: nat)
    requires h.Pair? && PairOk(h, size) && h.loaded.rounds > 0 && h.lock.Unlocked?
    ensures h.loaded.mag.Some?
    ensures var (a, b) := PopPos(h.loaded);
            && PairOk(h.(loaded := a), size) && Shells(h.(loaded := a)) == Shells(h)
            && Holds(p, h.(loaded := a)) + multiset{b} == Holds(p, h)
  {
    PopPosLive(h.loaded, h.magsize);
  }

  lemma PutPair(p: Place, h: Holder, b: Addr, size: nat)
    requires h.Pair? && PairOk(h, size) && HasRoom(h.loaded, h.magsize) && h.lock.Unlocked?
    ensures h.loaded.mag.Some?
    ensures var a := PushPos(h.loaded, b);
            && PairOk(h.(loaded := a), size) && Shells(h.(loaded := a)) == Shells(h)
            && Holds(p, h.(loaded := a)) == Holds(p, h) + multiset{b}
  {
    PushPosLive(h.loaded, b, h.magsize);
  }

  lemma SwapPair(p: Place, h: Holder, size: nat)
    requires h.Pair? && PairOk(h, size) && SwapGuard(h) && h.lock.Unlocked?
    ensures h.prev.mag.Some? && ReloadAsserts(h, h.prev.rounds)
    ensures var h' := Reload(h, h.prev.mag.value, h.prev.rounds);
            PairOk(h', size) && Holds(p, h') == Holds(p, h) && Shells(h') == Shells(h)
  {
    Regroup(PosLive(h.loaded), PosLive(h.prev), multiset{});
    Regroup(PosShell(h.loaded), PosShell(h.prev), multiset{});
  }

  /** What the thread under cc_lock popped is part of what the pair holds. */
  lemma LockShare(p: Place, h: Holder, k: CcLock)
    requires h.Pair? && h.lock.Has? && !k.Has?
    ensures Holds(p, h.(lock := k)) + All(h.lock.full, h.lock.mag) == Holds(p, h)
    ensures Shells(h.(lock := k)) + multiset{h.lock.mag.id} == Shells(h)
  {
  }

  // ---- every step keeps the invariant ----

  lemma PairIsOk(s: State, i: nat, hand: multiset<Addr>, sh: multiset<nat>, out: multiset<Addr>)
    requires Above(s, hand, sh, out) && IsCpu(s, i)
    ensures PairOk(CpuAt(s, i), SizeOf(s.magtype))
  {
    assert GoodAt(s.hold, Cpu(i), SizeOf(s.magtype));
  }

  /** The pair changes and lets go of `hand` and `sh`. */
  lemma PairLets(s: State, i: nat, h: Holder, hand: multiset<Addr>, sh: multiset<nat>, out: multiset<Addr>)
    requires Upper(s, out) && IsCpu(s, i) && h.Pair? && h.magsize == CpuAt(s, i).magsize
    requires PairOk(h, SizeOf(s.magtype))
    requires Holds(Cpu(i), h) + hand == Holds(Cpu(i), CpuAt(s, i)) && Shells(h) + sh == Shells(CpuAt(s, i))
    ensures Above(Put(s, Cpu(i), h), hand, sh, out)
  {
    Edit(s, Cpu(i), h, multiset{}, multiset{}, hand, sh, out);
  }

  /** The pair takes in what is in hand. */
  lemma PairGets(s: State, i: nat, h: Holder, hand: multiset<Addr>, sh: multiset<nat>, out: multiset<Addr>)
    requires Above(s, hand, sh, out) && IsCpu(s, i) && h.Pair? && h.magsize == CpuAt(s, i).magsize
    requires PairOk(h, SizeOf(s.magtype))
    requires Holds(Cpu(i), h) == Holds(Cpu(i), CpuAt(s, i)) + hand && Shells(h) == Shells(CpuAt(s, i)) + sh
    ensures Upper(Put(s, Cpu(i), h), out)
  {
    Edit(s, Cpu(i), h, hand, sh, multiset{}, multiset{}, out);
  }

  lemma PairSame(s: State, i: nat, h: Holder, out: multiset<Addr>)
    requires Upper(s, out) && IsCpu(s, i) && h.Pair? && h.magsize == CpuAt(s, i).magsize
    requires PairOk(h, SizeOf(s.magtype))
    requires Holds(Cpu(i), h) == Holds(Cpu(i), CpuAt(s, i)) && Shells(h) == Shells(CpuAt(s, i))
    ensures Upper(Put(s, Cpu(i), h), out)
  {
    Edit(s, Cpu(i), h, multiset{}, multiset{}, multiset{}, multiset{}, out);
  }

  lemma TakeKeeps(s: State, i: nat, out: multiset<Addr>)
    requires Upper(s, out) && CanStep(s, CpuTake(i))
    ensures Upper(DoTake(s, i), out)
    ensures CpuAt(s, i).loaded.mag.Some? && PopPos(CpuAt(s, i).loaded).1 !in s.client
  {
    var h := CpuAt(s, i);
    PairIsOk(s, i, multiset{}, multiset{}, out);
    TakePair(Cpu(i), h, SizeOf(s.magtype));
    var (a, b) := PopPos(h.loaded);
    PairLets(s, i, h.(loaded := a), multiset{b}, multiset{}, out);
    ToClient(Put(s, Cpu(i), h.(loaded := a)), b, out);
  }

  lemma PutKeeps(s: State, i: nat, k: nat, out: multiset<Addr>)
    requires Upper(s, out) && CanStep(s, CpuPut(i, k))
    ensures Upper(DoPut(s, i, k), out) && CpuAt(s, i).loaded.mag.Some?
  {
    var h, b := CpuAt(s, i), JobAt(s, k).buf;
    PairIsOk(s, i, multiset{}, multiset{}, out);
    PutPair(Cpu(i), h, b, SizeOf(s.magtype));
    EndJob(s, k, out);
    PairGets(DropJob(s, k), i, h.(loaded := PushPos(h.loaded, b)), multiset{b}, multiset{}, out);
  }

  lemma SwapKeeps(s: State, i: nat, out: multiset<Addr>)
    requires Upper(s, out) && CanStep(s, CpuSwap(i))
    ensures Upper(DoSwap(s, i), out)
    ensures CpuAt(s, i).prev.mag.Some? && ReloadAsserts(CpuAt(s, i), CpuAt(s, i).prev.rounds)
  {
    var h := CpuAt(s, i);
    PairIsOk(s, i, multiset{}, multiset{}, out);
    SwapPair(Cpu(i), h, SizeOf(s.magtype));
    PairSame(s, i, Reload(h, h.prev.mag.value, h.prev.rounds), out);
  }

  /** Taking cc_lock for the depot, or leaving without a magazine: only the lock changes. */
  lemma LockKeeps(s: State, i: nat, k: CcLock, out: multiset<Addr>)
    requires Upper(s, out) && IsCpu(s, i) && !CpuAt(s, i).lock.Has?
    requires k.Unlocked? || (k.Wants? && LockedFor(CpuAt(s, i), k.full))
    ensures Upper(Put(s, Cpu(i), CpuAt(s, i).(lock := k)), out)
  {
    PairIsOk(s, i, multiset{}, multiset{}, out);
    PairSame(s, i, CpuAt(s, i).(lock := k), out);
  }

  /** The magazine in hand becomes the one the thread under cc_lock has. */
  lemma LockGets(s: State, i: nat, m: Mag, out: multiset<Addr>)
    requires IsCpu(s, i) && CpuAt(s, i).lock.Wants? && MagOk(m)
    requires Above(s, All(CpuAt(s, i).lock.full, m), multiset{m.id}, out)
    ensures Upper(Put(s, Cpu(i), CpuAt(s, i).(lock := Has(CpuAt(s, i).lock.full, m))), out)
  {
    var h := CpuAt(s, i);
    var full := h.lock.full;
    PairIsOk(s, i, All(full, m), multiset{m.id}, out);
    LockShare(Cpu(i), h.(lock := Has(full, m)), h.lock);
    assert h.(lock := Has(full, m)).(lock := h.lock) == h;
    PairGets(s, i, h.(lock := Has(full, m)), All(full, m), multiset{m.id}, out);
  }

  lemma PopKeeps(s: State, i: nat, l: nat, out: multiset<Addr>)
    requires Upper(s, out) && CanStep(s, CpuPop(i, l))
    ensures Upper(Do(s, CpuPop(i, l)), out)
  {
    var full := CpuAt(s, i).lock.full;
    PopList(s, full, l, out);
    LockGets(PopOff(s, full, l), i, Top(s, full, l), out);
  }

  lemma RejectKeeps(s: State, i: nat, k: nat, out: multiset<Addr>)
    requires Upper(s, out) && CanStep(s, CpuReject(i, k))
    ensures Upper(Do(s, CpuReject(i, k)), out)
  {
    var h := CpuAt(s, i);
    var full, m := h.lock.full, h.lock.mag;
    PairIsOk(s, i, multiset{}, multiset{}, out);
    LockShare(Cpu(i), h, Wants(full));
    PairLets(s, i, h.(lock := Wants(full)), All(full, m), multiset{m.id}, out);
    StartStale(Put(s, Cpu(i), h.(lock := Wants(full))), k, full, m, out);
  }

  /** The shell a reload displaces goes to the list its round count says: all of it or nothing. */
  lemma PrevIsWhole(h: Holder, size: nat)
    requires h.Pair? && PairOk(h, size) && h.lock.Has? && h.prev.mag.Some?
    ensures h.prev.rounds == if h.lock.full then 0 else |h.prev.mag.value.slots|
    ensures PosLive(h.prev) == All(!h.lock.full, h.prev.mag.value)
  {
    WholeLive(h.prev.mag.value);
  }

  lemma InstallPair(h: Holder, size: nat)
    requires h.Pair? && PairOk(h, size) && h.lock.Has? && |h.lock.mag.slots| == size
    ensures
      var n := if h.lock.full then h.magsize else 0;
      && ReloadAsserts(h, n)
      && PairOk(Reload(h, h.lock.mag, n), size)
      && PosLive(Pos(Some(h.lock.mag), n)) == LockLive(h.lock)
  {
    WholeLive(h.lock.mag);
  }

  lemma PrevShare(p: Place, h: Holder)
    requires h.Pair? && h.prev.mag.Some?
    ensures Holds(p, h.(prev := Pos(None, -1))) + PosLive(h.prev) == Holds(p, h)
    ensures Shells(h.(prev := Pos(None, -1))) + multiset{h.prev.mag.value.id} == Shells(h)
  {
    Regroup(PosLive(h.loaded), PosLive(h.prev), LockLive(h.lock));
    Regroup(PosShell(h.loaded), PosShell(h.prev), if h.lock.Has? then multiset{h.lock.mag.id} else multiset{});
  }

  lemma PrevGiven(p: Place, h: Holder, size: nat)
    requires h.Pair? && PairOk(h, size) && h.lock.Has? && h.prev.mag.Some?
    ensures var m, h1 := h.prev.mag.value, h.(prev := Pos(None, -1));
            && PairOk(h1, size) && MagOk(m)
            && Holds(p, h1) + All(!h.lock.full, m) == Holds(p, h)
            && Shells(h1) + multiset{m.id} == Shells(h)
  {
    PrevIsWhole(h, size);
    PrevShare(p, h);
  }

  lemma PrevLets(s: State, i: nat, out: multiset<Addr>)
    requires Upper(s, out) && IsCpu(s, i) && CpuAt(s, i).lock.Has? && CpuAt(s, i).prev.mag.Some?
    ensures
      var h := CpuAt(s, i);
      var m := h.prev.mag.value;
      && MagOk(m)
      && Above(Put(s, Cpu(i), h.(prev := Pos(None, -1))), All(!h.lock.full, m), multiset{m.id}, out)
  {
    var h := CpuAt(s, i);
    var m := h.prev.mag.value;
    PairIsOk(s, i, multiset{}, multiset{}, out);
    PrevGiven(Cpu(i), h, SizeOf(s.magtype));
    PairLets(s, i, h.(prev := Pos(None, -1)), All(!h.lock.full, m), multiset{m.id}, out);
  }

  /** First half of an install: the previous magazine goes to the list opposite the popped one. */
  lemma InstallOut(s: State, i: nat, l: nat, out: multiset<Addr>)
    requires Upper(s, out) && CanStep(s, CpuInstall(i, l)) && CpuAt(s, i).prev.mag.Some?
    ensures
      var h := CpuAt(s, i);
      Upper(PushOn(Put(s, Cpu(i), h.(prev := Pos(None, -1))), !h.lock.full, l, h.prev.mag.value), out)
  {
    var h := CpuAt(s, i);
    PrevLets(s, i, out);
    PushList(Put(s, Cpu(i), h.(prev := Pos(None, -1))), !h.lock.full, l, h.prev.mag.value, out);
  }

  lemma InstallPrev(s: State, i: nat, l: nat, out: multiset<Addr>)
    requires Upper(s, out) && CanStep(s, CpuInstall(i, l)) && CpuAt(s, i).prev.mag.Some?
    ensures Upper(DoInstall(s, i, l), out)
  {
    var h := CpuAt(s, i);
    InstallOut(s, i, l, out);
    var s1 := PushOn(Put(s, Cpu(i), h.(prev := Pos(None, -1))), !h.lock.full, l, h.prev.mag.value);
    InstallBare(s1, i, l, out);
    assert DoInstall(s1, i, l).hold == DoInstall(s, i, l).hold;
  }

  lemma InstallBareHolds(p: Place, h: Holder, n: int)
    requires h.Pair? && h.lock.Has? && h.prev.mag.None? && PosLive(Pos(Some(h.lock.mag), n)) == LockLive(h.lock)
    ensures Holds(p, Reload(h, h.lock.mag, n)) == Holds(p, h) && Shells(Reload(h, h.lock.mag, n)) == Shells(h)
  {
    Regroup(PosLive(h.loaded), LockLive(h.lock), multiset{});
    Regroup(PosShell(h.loaded), multiset{h.lock.mag.id}, multiset{});
  }

  lemma InstallBare(s: State, i: nat, l: nat, out: multiset<Addr>)
    requires Upper(s, out) && CanStep(s, CpuInstall(i, l)) && CpuAt(s, i).prev.mag.None?
    ensures Upper(DoInstall(s, i, l), out)
  {
    var h := CpuAt(s, i);
    PairIsOk(s, i, multiset{}, multiset{}, out);
    InstallPair(h, SizeOf(s.magtype));
    InstallBareHolds(Cpu(i), h, if h.lock.full then h.magsize else 0);
    PairSame(s, i, Reload(h, h.lock.mag, if h.lock.full then h.magsize else 0), out);
  }

  lemma FreshKeeps(s: State, i: nat, k: nat, id: nat, out: multiset<Addr>)
    requires Upper(s, out) && CanStep(s, CpuFresh(i, k, id))
    ensures Upper(Do(s, CpuFresh(i, k, id)), out)
  {
    LockKeeps(s, i, Unlocked, out);
    var s1, m := Put(s, Cpu(i), CpuAt(s, i).(lock := Unlocked)), Blank(id, SizeOf(s.magtype));
    PutShells(s, Cpu(i), CpuAt(s, i).(lock := Unlocked));
    Cancel(EveryShell(s1.hold), EveryShell(s.hold), WasShells(s, Cpu(i)));
    NewShell(s1, id, out);
    Edit(s1, InFlight(k), Work(Fresh(m, i)), multiset{}, multiset{id}, multiset{}, multiset{}, out);
  }

  lemma FreshKeepKeeps(s: State, k: nat, l: nat, out: multiset<Addr>)
    requires Upper(s, out) && CanStep(s, FreshKeep(k, l))
    ensures Upper(Do(s, FreshKeep(k, l)), out)
  {
    var m := JobAt(s, k).mag;
    assert GoodAt(s.hold, InFlight(k), SizeOf(s.magtype));
    Drop(s, k, multiset{}, multiset{}, multiset{}, multiset{m.id}, out);
    PushList(DropJob(s, k), false, l, m, out);
  }

  lemma FreshDropKeeps(s: State, k: nat, out: multiset<Addr>)
    requires Upper(s, out) && CanStep(s, FreshDrop(k))
    ensures Upper(Do(s, FreshDrop(k)), out)
  {
    assert GoodAt(s.hold, InFlight(k), SizeOf(s.magtype));
    Edit(s, InFlight(k), Work(Shell(JobAt(s, k).mag)), multiset{}, multiset{}, multiset{}, multiset{}, out);
  }

  lemma StepKeeps(s: State, a: CpuStep, out: multiset<Addr>)
    requires Upper(s, out) && CanStep(s, a)
    ensures Upper(Do(s, a), out)
  {
    match a
    case CpuTake(i) => TakeKeeps(s, i, out);
    case CpuPut(i, k) => PutKeeps(s, i, k, out);
    case CpuSwap(i) => SwapKeeps(s, i, out);
    case CpuWant(i, full) => LockKeeps(s, i, Wants(full), out);
    case CpuPop(i, l) => PopKeeps(s, i, l, out);
    case CpuReject(i, k) => RejectKeeps(s, i, k, out);
    case CpuInstall(i, l) =>
      if CpuAt(s, i).prev.mag.Some? { InstallPrev(s, i, l, out); } else { InstallBare(s, i, l, out); }
    case CpuGiveUp(i) => LockKeeps(s, i, Unlocked, out);
    case CpuFresh(i, k, id) => FreshKeeps(s, i, k, id, out);
    case FreshKeep(k, l) => FreshKeepKeeps(s, k, l, out);
    case FreshDrop(k) => FreshDropKeeps(s, k, out);
  }

  lemma SlabSame(s: State, a: CpuStep)
    requires CanStep(s, a)
    ensures Do(s, a).slab == s.slab && (a.CpuTake? || Do(s, a).client == s.client)
  {
  }
}
