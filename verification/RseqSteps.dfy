/**
 * Restartable-sequence slots: the fast paths and the two-phase reload of umem_rseq_reload.  A
 * reload detaches the slot's magazine in one sequence and attaches the new one in another, and
 * the thread may have moved to another CPU between the two, or find the slot refilled.  Until
 * the commit the new magazine and the detached one are the caller's; after it the new one is
 * the slot's alone.
 */
module RseqSteps {
  import opened Collections
  import opened MagazineState
  import opened MagazineMoves

  /** UMEM_RSEQ_RELOAD_RETRIES. */
  const RETRIES: nat := 3

  /** Commit and abort are separate steps, so every order of aborts and migrations is a run. */
  datatype RseqStep =
    | RseqTake(i: nat)
    | RseqPut(i: nat, k: nat)
    | DepotPop(k: nat, full: bool, l: nat)
    | PopTest(k: nat)
    | Detach(k: nat, i: nat)
    | DetachAbort(k: nat)
    | Attach(k: nat)
    | AttachAbort(k: nat, k2: nat)
    | ReloadGiveUp(k: nat)

  predicate CanStep(s: State, a: RseqStep) {
    match a
    case RseqTake(i) => IsSlot(s, i) && SlotOf(s, i).pos.mag.Some? && SlotOf(s, i).pos.rounds > 0
    case RseqPut(i, k) =>
      && IsSlot(s, i) && SlotOf(s, i).pos.mag.Some? && SlotOf(s, i).pos.rounds < SlotOf(s, i).magsize
      && IsJob(s, k) && JobAt(s, k).Freeing?
    case DepotPop(k, full, l) => Unused(s, k) && CanPop(s, full, l)
    case PopTest(k) => IsJob(s, k) && JobAt(s, k).Popped?
    case Detach(k, i) => IsJob(s, k) && JobAt(s, k).Arming? && JobAt(s, k).tries < RETRIES && IsSlot(s, i)
    case DetachAbort(k) => IsJob(s, k) && JobAt(s, k).Arming? && JobAt(s, k).tries < RETRIES
    case Attach(k) =>
      && IsJob(s, k) && JobAt(s, k).Swapping?
      && IsSlot(s, JobAt(s, k).cpu) && SlotOf(s, JobAt(s, k).cpu).pos.mag.None?
    case AttachAbort(k, k2) => IsJob(s, k) && JobAt(s, k).Swapping? && Unused(s, k2)
    case ReloadGiveUp(k) => IsJob(s, k) && JobAt(s, k).Arming?
  }

  // ---- what each step does ----

  /** The slot a commit publishes: the new magazine, all of it or none live, bound by its own capacity. */
  function Published(full: bool, m: Mag): Holder {
    Slot(Pos(Some(m), if full then |m.slots| else 0), |m.slots|)
  }

  function DoAttach(s: State, k: nat): State
    requires CanStep(s, Attach(k))
  {
    var j := JobAt(s, k);
    var s1 := if j.was.mag.Some? then PutJob(s, k, Returning(true, j.was.mag.value, j.was.rounds))
              else DropJob(s, k);
    Put(s1, Rseq(j.cpu), Published(j.full, j.mag))
  }

  function DoAbort(s: State, k: nat, k2: nat): State
    requires CanStep(s, AttachAbort(k, k2))
  {
    var j := JobAt(s, k);
    var s1 := PutJob(s, k, Arming(j.full, j.mag, j.tries + 1));
    if j.was.mag.Some? then PutJob(s1, k2, Returning(true, j.was.mag.value, j.was.rounds)) else s1
  }

  function Do(s: State, a: RseqStep): State
    requires CanStep(s, a)
  {
    match a
    case RseqTake(i) =>
      var h := SlotOf(s, i);
      var (p, b) := PopPos(h.pos);
      Put(s, Rseq(i), h.(pos := p)).(client := s.client + {b})
    case RseqPut(i, k) =>
      var h := SlotOf(s, i);
      Put(DropJob(s, k), Rseq(i), h.(pos := PushPos(h.pos, JobAt(s, k).buf)))
    case DepotPop(k, full, l) => PutJob(PopOff(s, full, l), k, Popped(full, Top(s, full, l)))
    case PopTest(k) =>
      var j := JobAt(s, k);
      PutJob(s, k, if IsValid(s, j.mag) then Arming(j.full, j.mag, 0) else Stale(j.full, j.mag, 0))
    case Detach(k, i) =>
      var j, h := JobAt(s, k), SlotOf(s, i);
      PutJob(Put(s, Rseq(i), h.(pos := Pos(None, 0))), k, Swapping(j.full, j.mag, j.tries, i, h.pos))
    case DetachAbort(k) => PutJob(s, k, Arming(JobAt(s, k).full, JobAt(s, k).mag, JobAt(s, k).tries + 1))
    case Attach(k) => DoAttach(s, k)
    case AttachAbort(k, k2) => DoAbort(s, k, k2)
    case ReloadGiveUp(k) => PutJob(s, k, Pushing(JobAt(s, k).full, JobAt(s, k).mag))
  }

  // ---- every step keeps the invariant ----

  lemma TakeKeeps(s: State, i: nat, out: multiset<Addr>)
    requires Upper(s, out) && CanStep(s, RseqTake(i))
    ensures Upper(Do(s, RseqTake(i)), out) && PopPos(SlotOf(s, i).pos).1 !in s.client
  {
    var h := SlotOf(s, i);
    assert GoodAt(s.hold, Rseq(i), SizeOf(s.magtype));
    PopPosLive(h.pos, h.magsize);
    var (p, b) := PopPos(h.pos);
    Edit(s, Rseq(i), h.(pos := p), multiset{}, multiset{}, multiset{b}, multiset{}, out);
    ToClient(Put(s, Rseq(i), h.(pos := p)), b, out);
  }

  lemma PutKeeps(s: State, i: nat, k: nat, out: multiset<Addr>)
    requires Upper(s, out) && CanStep(s, RseqPut(i, k))
    ensures Upper(Do(s, RseqPut(i, k)), out)
  {
    var h, b := SlotOf(s, i), JobAt(s, k).buf;
    assert GoodAt(s.hold, Rseq(i), SizeOf(s.magtype));
    PushPosLive(h.pos, b, h.magsize);
    EndJob(s, k, out);
    Edit(DropJob(s, k), Rseq(i), h.(pos := PushPos(h.pos, b)), multiset{b}, multiset{}, multiset{}, multiset{}, out);
  }

  lemma PopKeeps(s: State, k: nat, full: bool, l: nat, out: multiset<Addr>)
    requires Upper(s, out) && CanStep(s, DepotPop(k, full, l))
    ensures Upper(Do(s, DepotPop(k, full, l)), out)
  {
    PopList(s, full, l, out);
    StartJob(PopOff(s, full, l), k, Popped(full, Top(s, full, l)), out);
  }

  lemma TestKeeps(s: State, k: nat, out: multiset<Addr>)
    requires Upper(s, out) && CanStep(s, PopTest(k))
    ensures Upper(Do(s, PopTest(k)), out)
  {
    var j := JobAt(s, k);
    JobIsOk(s, k, out);
    WholeLive(j.mag);
    GoOn(s, k, if IsValid(s, j.mag) then Arming(j.full, j.mag, 0) else Stale(j.full, j.mag, 0),
         multiset{}, multiset{}, out);
  }

  lemma SlotLets(s: State, i: nat, out: multiset<Addr>)
    requires Upper(s, out) && IsSlot(s, i)
    ensures PosOk(SlotOf(s, i).pos, SlotOf(s, i).magsize)
    ensures Above(Put(s, Rseq(i), SlotOf(s, i).(pos := Pos(None, 0))),
                  PosLive(SlotOf(s, i).pos), PosShell(SlotOf(s, i).pos), out)
  {
    var h := SlotOf(s, i);
    assert GoodAt(s.hold, Rseq(i), SizeOf(s.magtype));
    Edit(s, Rseq(i), h.(pos := Pos(None, 0)), multiset{}, multiset{}, PosLive(h.pos), PosShell(h.pos), out);
  }

  lemma DetachKeeps(s: State, k: nat, i: nat, out: multiset<Addr>)
    requires Upper(s, out) && CanStep(s, Detach(k, i))
    ensures Upper(Do(s, Detach(k, i)), out)
  {
    var j, h := JobAt(s, k), SlotOf(s, i);
    JobIsOk(s, k, out);
    SlotLets(s, i, out);
    JobGets(Put(s, Rseq(i), h.(pos := Pos(None, 0))), k, Swapping(j.full, j.mag, j.tries, i, h.pos),
            PosLive(h.pos), PosShell(h.pos), out);
  }

  lemma PublishedHolds(full: bool, m: Mag, i: nat, size: nat)
    requires MagOk(m)
    ensures Holds(Rseq(i), Published(full, m)) == All(full, m) && Shells(Published(full, m)) == multiset{m.id}
    ensures Good(Rseq(i), Published(full, m), size)
  {
    WholeLive(m);
  }

  /** Publishing into a detached slot. */
  lemma PublishKeeps(s: State, i: nat, full: bool, m: Mag, out: multiset<Addr>)
    requires Above(s, All(full, m), multiset{m.id}, out) && MagOk(m)
    requires IsSlot(s, i) && SlotOf(s, i).pos.mag.None?
    ensures Upper(Put(s, Rseq(i), Published(full, m)), out)
  {
    PublishedHolds(full, m, i, SizeOf(s.magtype));
    Edit(s, Rseq(i), Published(full, m), All(full, m), multiset{m.id}, multiset{}, multiset{}, out);
  }

  /** What a swap in flight has: the new magazine and, if the slot had one, the displaced one. */
  lemma SwapShare(j: Job)
    requires j.Swapping? && JobOk(j)
    ensures match j.was.mag
            case Some(m) =>
              var r := Returning(true, m, j.was.rounds);
              && JobOk(r) && JobLive(r) + All(j.full, j.mag) == JobLive(j)
              && JobShells(r) + multiset{j.mag.id} == JobShells(j)
            case None => JobLive(j) == All(j.full, j.mag) && JobShells(j) == multiset{j.mag.id}
  {
  }

  lemma AttachKeeps(s: State, k: nat, out: multiset<Addr>)
    requires Upper(s, out) && CanStep(s, Attach(k))
    ensures Upper(DoAttach(s, k), out)
  {
    var j := JobAt(s, k);
    assert JobOk(j) by { JobIsOk(s, k, out); }
    SwapShare(j);
    if j.was.mag.Some? {
      var j' := Returning(true, j.was.mag.value, j.was.rounds);
      GoOn(s, k, j', All(j.full, j.mag), multiset{j.mag.id}, out);
      PublishKeeps(PutJob(s, k, j'), j.cpu, j.full, j.mag, out);
    } else {
      EndJob(s, k, out);
      PublishKeeps(DropJob(s, k), j.cpu, j.full, j.mag, out);
    }
  }

  lemma ArmAgain(s: State, k: nat, out: multiset<Addr>)
    requires Upper(s, out) && IsJob(s, k) && JobAt(s, k).Swapping?
    ensures var j := JobAt(s, k);
            && JobOk(j)
            && Above(PutJob(s, k, Arming(j.full, j.mag, j.tries + 1)), PosLive(j.was), PosShell(j.was), out)
  {
    var j := JobAt(s, k);
    JobIsOk(s, k, out);
    GoOn(s, k, Arming(j.full, j.mag, j.tries + 1), PosLive(j.was), PosShell(j.was), out);
  }

  lemma AbortKeeps(s: State, k: nat, k2: nat, out: multiset<Addr>)
    requires Upper(s, out) && CanStep(s, AttachAbort(k, k2))
    ensures Upper(DoAbort(s, k, k2), out)
  {
    var j := JobAt(s, k);
    ArmAgain(s, k, out);
    if j.was.mag.Some? {
      StartJob(PutJob(s, k, Arming(j.full, j.mag, j.tries + 1)), k2,
               Returning(true, j.was.mag.value, j.was.rounds), out);
    }
  }

  lemma StepKeeps(s: State, a: RseqStep, out: multiset<Addr>)
    requires Upper(s, out) && CanStep(s, a)
    ensures Upper(Do(s, a), out)
  {
    match a
    case RseqTake(i) => TakeKeeps(s, i, out);
    case RseqPut(i, k) => PutKeeps(s, i, k, out);
    case DepotPop(k, full, l) => PopKeeps(s, k, full, l, out);
    case PopTest(k) => TestKeeps(s, k, out);
    case Detach(k, i) => DetachKeeps(s, k, i, out);
    case DetachAbort(k) =>
      JobIsOk(s, k, out);
      GoOn(s, k, Arming(JobAt(s, k).full, JobAt(s, k).mag, JobAt(s, k).tries + 1), multiset{}, multiset{}, out);
    case Attach(k) => AttachKeeps(s, k, out);
    case AttachAbort(k, k2) => AbortKeeps(s, k, k2, out);
    case ReloadGiveUp(k) =>
      JobIsOk(s, k, out);
      GoOn(s, k, Pushing(JobAt(s, k).full, JobAt(s, k).mag), multiset{}, multiset{}, out);
  }
}
