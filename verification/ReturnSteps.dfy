/**
 * Magazines on their way back: umem_ptc_mag_return and its drain, stale and reaped magazines,
 * and the shells at the end.  A magazine that cannot go to a list whole is drained a round at a
 * time, each round a buffer on its way to the slab layer, while the shell keeps the rounds not
 * yet freed; the shell itself is freed last.  Everything here is done by one thread on a
 * magazine it owns, so any other step may come between two of its own.
 */
module ReturnSteps {
  import opened Collections
  import opened MagazineState
  import opened MagazineMoves

  datatype ReturnStep =
    | ReturnTest(k: nat)
    | Unload(k: nat, k2: nat)
    | UnloadDone(k: nat)
    | PushBack(k: nat, l: nat)
    | ShellFree(k: nat)
    | ReapPop(k: nat, full: bool, l: nat)

  predicate CanStep(s: State, a: ReturnStep) {
    match a
    case ReturnTest(k) => IsJob(s, k) && JobAt(s, k).Returning?
    case Unload(k, k2) => IsJob(s, k) && Unloading(JobAt(s, k)) && Unused(s, k2)
    case UnloadDone(k) => IsJob(s, k) && Unloaded(JobAt(s, k))
    case PushBack(k, l) => IsJob(s, k) && JobAt(s, k).Pushing? && IsList(s, JobAt(s, k).full, l)
    case ShellFree(k) => IsJob(s, k) && JobAt(s, k).Shell?
    case ReapPop(k, full, l) => Unused(s, k) && CanPop(s, full, l)
  }

  /** The three loops over mag_round: umem_mag_drain, umem_depot_destroy_stale, umem_magazine_destroy. */
  predicate Unloading(j: Job) {
    match j
    case Draining(m, n, r, _) => r < n
    case Stale(full, m, r) => full && r < |m.slots|
    case Destroying(m, n, r) => r < n
    case _ => false
  }

  predicate Unloaded(j: Job) {
    (j.Draining? || j.Stale? || j.Destroying?) && !Unloading(j)
  }

  // ---- what each step does ----

  /** umem_ptc_mag_return: by the shell's magtype, then by the caller's list and count. */
  function Classified(s: State, j: Job): Job
    requires j.Returning?
  {
    var cap := |j.mag.slots|;
    var n := if j.rounds > cap then cap else j.rounds;
    if !IsValid(s, j.mag) then Draining(j.mag, n, 0, false)
    else if !j.full || j.rounds != cap then Draining(j.mag, n, 0, true)
    else Pushing(true, j.mag)
  }

  /** One round of the loop; the first two also clear the slot. */
  function NextRound(j: Job): (Job, Addr)
    requires Unloading(j)
  {
    match j
    case Draining(m, n, r, keep) => (Draining(SlotSet(m, r, 0), n, r + 1, keep), SlotAt(m, r))
    case Stale(full, m, r) => (Stale(full, SlotSet(m, r, 0), r + 1), SlotAt(m, r))
    case Destroying(m, n, r) => (Destroying(m, n, r + 1), SlotAt(m, r))
  }

  function Finished(j: Job): Job
    requires Unloaded(j)
  {
    if j.Draining? && j.keep then Pushing(false, j.mag) else Shell(j.mag)
  }

  /** A reaped magazine is destroyed with the rounds its list promises. */
  function Reaped(s: State, full: bool, m: Mag): Job {
    if IsValid(s, m) then Destroying(m, if full then SizeOf(s.magtype) else 0, 0) else Stale(full, m, 0)
  }

  function Do(s: State, a: ReturnStep): State
    requires CanStep(s, a)
  {
    match a
    case ReturnTest(k) => PutJob(s, k, Classified(s, JobAt(s, k)))
    case Unload(k, k2) =>
      var (j, b) := NextRound(JobAt(s, k));
      MaybeJob(PutJob(s, k, j), b != 0, k2, Freeing(b))
    case UnloadDone(k) => PutJob(s, k, Finished(JobAt(s, k)))
    case PushBack(k, l) => PushOn(DropJob(s, k), JobAt(s, k).full, l, JobAt(s, k).mag)
    case ShellFree(k) => DropJob(s, k)
    case ReapPop(k, full, l) => PutJob(PopOff(s, full, l), k, Reaped(s, full, Top(s, full, l)))
  }

  // ---- every step keeps the invariant ----

  /** Nothing is lost by the classification, and the clamp to the capacity never bites. */
  lemma ClassifiedSame(s: State, j: Job)
    requires j.Returning? && JobOk(j)
    ensures var j' := Classified(s, j); JobOk(j') && JobLive(j') == JobLive(j) && JobShells(j') == JobShells(j)
    ensures Classified(s, j).Pushing? <==> IsValid(s, j.mag) && j.full && j.rounds == |j.mag.slots|
  {
    WholeLive(j.mag);
  }

  lemma LiveCons(m: Mag, r: nat, n: nat)
    requires r < n <= |m.slots|
    ensures Live(m, r, n) == multiset{m.slots[r]} + Live(m, r + 1, n)
    ensures Live(SlotSet(m, r, 0), r + 1, n) == Live(m, r + 1, n)
  {
    assert m.slots[r..n] == [m.slots[r]] + m.slots[r + 1..n];
    assert m.slots[r := 0][r + 1..n] == m.slots[r + 1..n];
  }

  lemma NextRoundGives(j: Job)
    requires Unloading(j) && JobOk(j)
    ensures
      var (j', b) := NextRound(j);
      && JobOk(j') && JobLive(j') + multiset{b} == JobLive(j) && JobShells(j') == JobShells(j)
  {
    match j
    case Draining(m, n, r, _) => LiveCons(m, r, n);
    case Stale(_, m, r) => LiveCons(m, r, |m.slots|);
    case Destroying(m, n, r) => LiveCons(m, r, n);
  }

  lemma UnloadKeeps(s: State, k: nat, k2: nat, out: multiset<Addr>)
    requires Upper(s, out) && CanStep(s, Unload(k, k2)) && out[0] == 0
    ensures Upper(Do(s, Unload(k, k2)), out) && NextRound(JobAt(s, k)).1 != 0
  {
    var (j, b) := NextRound(JobAt(s, k));
    JobIsOk(s, k, out);
    NextRoundGives(JobAt(s, k));
    GoOn(s, k, j, multiset{b}, multiset{}, out);
    assert CountedAt(PutJob(s, k, j), multiset{b}, out, b);
    StartJob(PutJob(s, k, j), k2, Freeing(b), out);
  }

  /** A loop that has run to its end leaves nothing in the shell. */
  lemma FinishedEmpty(j: Job)
    requires Unloaded(j) && JobOk(j)
    ensures JobOk(Finished(j)) && JobLive(j) == multiset{} == JobLive(Finished(j))
    ensures JobShells(Finished(j)) == JobShells(j)
  {
  }

  lemma DoneKeeps(s: State, k: nat, out: multiset<Addr>)
    requires Upper(s, out) && CanStep(s, UnloadDone(k))
    ensures Upper(Do(s, UnloadDone(k)), out)
  {
    JobIsOk(s, k, out);
    FinishedEmpty(JobAt(s, k));
    GoOn(s, k, Finished(JobAt(s, k)), multiset{}, multiset{}, out);
  }

  lemma ReapedHolds(s: State, full: bool, m: Mag)
    requires MagOk(m)
    ensures JobOk(Reaped(s, full, m)) && JobLive(Reaped(s, full, m)) == All(full, m)
    ensures JobShells(Reaped(s, full, m)) == multiset{m.id}
  {
    WholeLive(m);
  }

  lemma ReapKeeps(s: State, k: nat, full: bool, l: nat, out: multiset<Addr>)
    requires Upper(s, out) && CanStep(s, ReapPop(k, full, l))
    ensures Upper(Do(s, ReapPop(k, full, l)), out)
  {
    var m := Top(s, full, l);
    PopList(s, full, l, out);
    ReapedHolds(s, full, m);
    StartJob(PopOff(s, full, l), k, Reaped(s, full, m), out);
  }

  lemma StepKeeps(s: State, a: ReturnStep, out: multiset<Addr>)
    requires Upper(s, out) && CanStep(s, a) && out[0] == 0
    ensures Upper(Do(s, a), out)
  {
    match a
    case ReturnTest(k) =>
      JobIsOk(s, k, out);
      ClassifiedSame(s, JobAt(s, k));
      GoOn(s, k, Classified(s, JobAt(s, k)), multiset{}, multiset{}, out);
    case Unload(k, k2) => UnloadKeeps(s, k, k2, out);
    case UnloadDone(k) => DoneKeeps(s, k, out);
    case PushBack(k, l) =>
      JobIsOk(s, k, out);
      EndJob(s, k, out);
      PushList(DropJob(s, k), JobAt(s, k).full, l, JobAt(s, k).mag, out);
    case ShellFree(k) =>
      EndJob(s, k, out);
      FreedShell(DropJob(s, k), multiset{}, JobShells(JobAt(s, k)), out);
    case ReapPop(k, full, l) => ReapKeeps(s, k, full, l, out);
  }
}
