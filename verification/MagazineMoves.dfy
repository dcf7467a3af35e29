/**
 * Editing one holder at a time, and what that does to the totals.
 *
 * A step of any layer is a short list of edits.  Between two of them some buffers and some
 * shells are in no holder; they are `in hand`, and the invariant is stated with that hand as a
 * parameter.  An edit that takes a share out of a holder adds it to the hand, and one that
 * puts a share in uses it up, so a step that starts and ends with an empty hand has lost and
 * copied nothing.
 */
module MagazineMoves {
  import opened Collections
  import opened MagazineState
  import SlabLayer

  // ---- accessors ----

  predicate IsJob(s: State, k: nat) { InFlight(k) in s.hold && s.hold[InFlight(k)].Work? }

  function JobAt(s: State, k: nat): Job
    requires IsJob(s, k)
  {
    s.hold[InFlight(k)].job
  }

  predicate Unused(s: State, k: nat) { InFlight(k) !in s.hold }

  predicate IsCpu(s: State, i: nat) { Cpu(i) in s.hold && s.hold[Cpu(i)].Pair? }

  function CpuAt(s: State, i: nat): (h: Holder)
    requires IsCpu(s, i)
    ensures h.Pair?
  {
    s.hold[Cpu(i)]
  }

  predicate IsSlot(s: State, i: nat) { Rseq(i) in s.hold && s.hold[Rseq(i)].Slot? }

  function SlotOf(s: State, i: nat): (h: Holder)
    requires IsSlot(s, i)
    ensures h.Slot?
  {
    s.hold[Rseq(i)]
  }

  predicate IsThr(s: State, t: nat) { Thr(t) in s.hold && s.hold[Thr(t)].Ptc? }

  function ThrAt(s: State, t: nat): (h: Holder)
    requires IsThr(s, t)
    ensures h.Ptc?
  {
    s.hold[Thr(t)]
  }

  function ListPlace(full: bool, l: nat): Place { if full then Full(l) else Empty(l) }

  predicate IsList(s: State, full: bool, l: nat) {
    ListPlace(full, l) in s.hold && s.hold[ListPlace(full, l)].List?
  }

  function MagsAt(s: State, full: bool, l: nat): seq<Mag>
    requires IsList(s, full, l)
  {
    s.hold[ListPlace(full, l)].mags
  }

  /** A depot list with a magazine to pop. */
  predicate CanPop(s: State, full: bool, l: nat) { IsList(s, full, l) && MagsAt(s, full, l) != [] }

  function Top(s: State, full: bool, l: nat): Mag
    requires CanPop(s, full, l)
  {
    MagsAt(s, full, l)[0]
  }

  /** UMEM_MAGAZINE_VALID: the shell comes from the magtype the cache uses now. */
  predicate IsValid(s: State, m: Mag) { |m.slots| == SizeOf(s.magtype) }

  function Blank(id: nat, size: nat): Mag { Mag(id, seq(size, _ => 0)) }

  /** mag_round[i]; an index past the shell reads nothing. */
  function SlotAt(m: Mag, i: int): Addr { if 0 <= i < |m.slots| then m.slots[i] else 0 }

  /** A store to mag_round[i]; an index past the shell stores nothing. */
  function SlotSet(m: Mag, i: int, b: Addr): Mag {
    if 0 <= i < |m.slots| then m.(slots := m.slots[i := b]) else m
  }

  /** mag_round[--rounds] and mag_round[rounds++] of a magazine in use. */
  function PopPos(a: Pos): (Pos, Addr)
    requires a.mag.Some?
  {
    (a.(rounds := a.rounds - 1), SlotAt(a.mag.value, a.rounds - 1))
  }

  function PushPos(a: Pos, b: Addr): Pos
    requires a.mag.Some?
  {
    Pos(Some(SlotSet(a.mag.value, a.rounds, b)), a.rounds + 1)
  }

  lemma PopPosLive(a: Pos, size: nat)
    requires a.mag.Some? && PosOk(a, size) && a.rounds > 0
    ensures PosOk(PopPos(a).0, size) && PosShell(PopPos(a).0) == PosShell(a)
    ensures PosLive(a) == PosLive(PopPos(a).0) + multiset{PopPos(a).1}
  {
    var m, n := a.mag.value, a.rounds;
    assert m.slots[0..n] == m.slots[0..n - 1] + [m.slots[n - 1]];
  }

  lemma PushPosLive(a: Pos, b: Addr, size: nat)
    requires a.mag.Some? && PosOk(a, size) && 0 <= a.rounds < size
    ensures PosOk(PushPos(a, b), size) && PosShell(PushPos(a, b)) == PosShell(a)
    ensures PosLive(PushPos(a, b)) == PosLive(a) + multiset{b}
  {
    var m, n := a.mag.value, a.rounds;
    assert m.slots[n := b][0..n + 1] == m.slots[0..n] + [b];
  }

  lemma WholeLive(m: Mag)
    ensures Live(m, 0, |m.slots|) == multiset(m.slots) && Live(m, 0, 0) == multiset{}
  {
    assert m.slots[0..|m.slots|] == m.slots && m.slots[0..0] == [];
  }

  // ---- edits ----

  function Put(s: State, p: Place, h: Holder): State { s.(hold := s.hold[p := h]) }

  function PutJob(s: State, k: nat, j: Job): State { Put(s, InFlight(k), Work(j)) }

  function DropJob(s: State, k: nat): State { s.(hold := s.hold - {InFlight(k)}) }

  /** umem_depot_push. */
  function PushOn(s: State, full: bool, l: nat, m: Mag): State
    requires IsList(s, full, l)
  {
    Put(s, ListPlace(full, l), List([m] + MagsAt(s, full, l)))
  }

  /** umem_depot_pop. */
  function PopOff(s: State, full: bool, l: nat): State
    requires CanPop(s, full, l)
  {
    Put(s, ListPlace(full, l), List(MagsAt(s, full, l)[1..]))
  }

  /** Start one more job when there is a magazine to work on. */
  function MaybeJob(s: State, go: bool, k: nat, j: Job): State {
    if go then PutJob(s, k, j) else s
  }

  // ---- totals ----

  ghost function Rounds(s: State): multiset<Addr> { Pool(HoldsAll(s.hold)) }

  ghost function Was(s: State, p: Place): multiset<Addr> {
    if p in s.hold then Holds(p, s.hold[p]) else multiset{}
  }

  ghost function WasShells(s: State, p: Place): multiset<nat> {
    if p in s.hold then Shells(s.hold[p]) else multiset{}
  }

  lemma PutRounds(s: State, p: Place, h: Holder)
    ensures Rounds(Put(s, p, h)) + Was(s, p) == Rounds(s) + Holds(p, h)
  {
    var m, v := HoldsAll(s.hold), Holds(p, h);
    assert HoldsAll(s.hold[p := h]) == m[p := v];
    if p in s.hold { PoolUpdate(m, p, v); } else { PoolAdd(m, p, v); }
  }

  lemma PutShells(s: State, p: Place, h: Holder)
    ensures EveryShell(Put(s, p, h).hold) + WasShells(s, p) == EveryShell(s.hold) + Shells(h)
  {
    var m, v := ShellsAll(s.hold), Shells(h);
    assert ShellsAll(s.hold[p := h]) == m[p := v];
    if p in s.hold { PoolUpdate(m, p, v); } else { PoolAdd(m, p, v); }
  }

  lemma PutTotals(s: State, p: Place, h: Holder)
    ensures Rounds(Put(s, p, h)) + Was(s, p) == Rounds(s) + Holds(p, h)
    ensures EveryShell(Put(s, p, h).hold) + WasShells(s, p) == EveryShell(s.hold) + Shells(h)
  {
    PutRounds(s, p, h);
    PutShells(s, p, h);
  }

  lemma DropRounds(s: State, k: nat)
    requires InFlight(k) in s.hold
    ensures Rounds(DropJob(s, k)) + Was(s, InFlight(k)) == Rounds(s)
  {
    var p := InFlight(k);
    assert HoldsAll(s.hold - {p}) == HoldsAll(s.hold) - {p};
    PoolSplit(HoldsAll(s.hold), p);
  }

  lemma DropShells(s: State, k: nat)
    requires InFlight(k) in s.hold
    ensures EveryShell(DropJob(s, k).hold) + WasShells(s, InFlight(k)) == EveryShell(s.hold)
  {
    var p := InFlight(k);
    assert ShellsAll(s.hold - {p}) == ShellsAll(s.hold) - {p};
    PoolSplit(ShellsAll(s.hold), p);
  }

  // ---- one edit at a time, with what it frees or needs in hand ----

  /** Editing a holder keeps the update thread's view when no CPU's magsize changes. */
  predicate SameCpu(s: State, p: Place, h: Holder) {
    p.Cpu? ==> p in s.hold && s.hold[p].Pair? && h.Pair? && h.magsize == s.hold[p].magsize
  }

  lemma PutGood(s: State, p: Place, h: Holder)
    requires AllGood(s.hold, SizeOf(s.magtype)) && Good(p, h, SizeOf(s.magtype))
    ensures AllGood(Put(s, p, h).hold, SizeOf(s.magtype))
  {
    var s' := Put(s, p, h);
    forall q ensures GoodAt(s'.hold, q, SizeOf(s.magtype)) {
      assert GoodAt(s.hold, q, SizeOf(s.magtype));
    }
  }

  lemma PutPhase(s: State, p: Place, h: Holder)
    requires PhaseOk(s) && SameCpu(s, p, h)
    ensures PhaseOk(Put(s, p, h))
  {
    var s' := Put(s, p, h);
    forall q ensures PhaseAt(s'.hold, s.ncpus, s.phase, q) {
      assert PhaseAt(s.hold, s.ncpus, s.phase, q);
    }
  }

  /** Replacing one share of the total, the difference going into or coming out of the hand. */
  lemma Recounted(s: State, s': State, was: multiset<Addr>, now: multiset<Addr>,
                  hand: multiset<Addr>, hand': multiset<Addr>, out: multiset<Addr>)
    requires (forall b :: CountedAt(s, hand, out, b)) && s'.client == s.client
    requires Rounds(s') + was == Rounds(s) + now && now + hand' == was + hand
    ensures forall b :: CountedAt(s', hand', out, b)
  {
    forall b ensures CountedAt(s', hand', out, b) {
      assert CountedAt(s, hand, out, b);
      assert (Rounds(s') + was)[b] == (Rounds(s) + now)[b] && (now + hand')[b] == (was + hand)[b];
    }
  }

  lemma ShellsRecounted(s: State, s': State, was: multiset<nat>, now: multiset<nat>,
                        sh: multiset<nat>, sh': multiset<nat>)
    requires forall id :: ShellAt(s.hold, sh, id)
    requires EveryShell(s'.hold) + was == EveryShell(s.hold) + now && now + sh' == was + sh
    ensures forall id :: ShellAt(s'.hold, sh', id)
  {
    forall id ensures ShellAt(s'.hold, sh', id) {
      assert ShellAt(s.hold, sh, id);
      assert (EveryShell(s'.hold) + was)[id] == (EveryShell(s.hold) + now)[id];
      assert (now + sh')[id] == (was + sh)[id];
    }
  }

  lemma Edit(s: State, p: Place, h: Holder,
             hand: multiset<Addr>, sh: multiset<nat>, hand': multiset<Addr>, sh': multiset<nat>, out: multiset<Addr>)
    requires Above(s, hand, sh, out)
    requires Good(p, h, SizeOf(s.magtype)) && SameCpu(s, p, h)
    requires Holds(p, h) + hand' == Was(s, p) + hand
    requires Shells(h) + sh' == WasShells(s, p) + sh
    ensures Above(Put(s, p, h), hand', sh', out)
  {
    PutTotals(s, p, h);
    PutGood(s, p, h);
    PutPhase(s, p, h);
    Recounted(s, Put(s, p, h), Was(s, p), Holds(p, h), hand, hand', out);
    ShellsRecounted(s, Put(s, p, h), WasShells(s, p), Shells(h), sh, sh');
  }

  lemma DropGood(s: State, k: nat)
    requires AllGood(s.hold, SizeOf(s.magtype)) && PhaseOk(s)
    ensures AllGood(DropJob(s, k).hold, SizeOf(s.magtype)) && PhaseOk(DropJob(s, k))
  {
    var s', size := DropJob(s, k), SizeOf(s.magtype);
    forall q ensures GoodAt(s'.hold, q, size) && PhaseAt(s'.hold, s.ncpus, s.phase, q) {
      assert GoodAt(s.hold, q, size) && PhaseAt(s.hold, s.ncpus, s.phase, q);
    }
  }

  lemma Drop(s: State, k: nat,
             hand: multiset<Addr>, sh: multiset<nat>, hand': multiset<Addr>, sh': multiset<nat>, out: multiset<Addr>)
    requires Above(s, hand, sh, out) && InFlight(k) in s.hold
    requires hand' == Was(s, InFlight(k)) + hand && sh' == WasShells(s, InFlight(k)) + sh
    ensures Above(DropJob(s, k), hand', sh', out)
  {
    DropRounds(s, k);
    DropShells(s, k);
    DropGood(s, k);
    var p := InFlight(k);
    Recounted(s, DropJob(s, k), Was(s, p), multiset{}, hand, hand', out);
    ShellsRecounted(s, DropJob(s, k), WasShells(s, p), multiset{}, sh, sh');
  }

  lemma PushList(s: State, full: bool, l: nat, m: Mag, out: multiset<Addr>)
    requires Above(s, All(full, m), multiset{m.id}, out) && IsList(s, full, l) && MagOk(m)
    ensures Upper(PushOn(s, full, l, m), out)
  {
    var p, mags := ListPlace(full, l), MagsAt(s, full, l);
    assert GoodAt(s.hold, p, SizeOf(s.magtype));
    assert ([m] + mags)[1..] == mags;
    assert Holds(p, List([m] + mags)) == All(full, m) + Was(s, p);
    Edit(s, p, List([m] + mags), All(full, m), multiset{m.id}, multiset{}, multiset{}, out);
  }

  lemma PopList(s: State, full: bool, l: nat, out: multiset<Addr>)
    requires Upper(s, out) && CanPop(s, full, l)
    ensures Above(PopOff(s, full, l), All(full, Top(s, full, l)), multiset{Top(s, full, l).id}, out)
    ensures MagOk(Top(s, full, l))
  {
    var p, m := ListPlace(full, l), Top(s, full, l);
    assert GoodAt(s.hold, p, SizeOf(s.magtype));
    Edit(s, p, List(MagsAt(s, full, l)[1..]), multiset{}, multiset{}, All(full, m), multiset{m.id}, out);
  }

  /** Handing a buffer to the application: it cannot have been the application's already. */
  lemma ToClient(s: State, b: Addr, out: multiset<Addr>)
    requires Above(s, multiset{b}, multiset{}, out)
    ensures b !in s.client && Upper(s.(client := s.client + {b}), out)
  {
    assert CountedAt(s, multiset{b}, out, b);
    forall x ensures CountedAt(s.(client := s.client + {b}), multiset{}, out, x) {
      assert CountedAt(s, multiset{b}, out, x);
    }
  }

  lemma FromClient(s: State, b: Addr, out: multiset<Addr>)
    requires Upper(s, out) && b in s.client
    ensures Above(s.(client := s.client - {b}), multiset{b}, multiset{}, out)
  {
    forall x ensures CountedAt(s.(client := s.client - {b}), multiset{b}, out, x) {
      assert CountedAt(s, multiset{}, out, x);
    }
  }

  /** A shell just allocated, and one just freed. */
  lemma NewShell(s: State, id: nat, out: multiset<Addr>)
    requires Upper(s, out) && id !in EveryShell(s.hold)
    ensures Above(s, multiset{}, multiset{id}, out)
  {
    forall x ensures ShellAt(s.hold, multiset{id}, x) {
      assert ShellAt(s.hold, multiset{}, x);
    }
  }

  lemma FreedShell(s: State, hand: multiset<Addr>, sh: multiset<nat>, out: multiset<Addr>)
    requires Above(s, hand, sh, out)
    ensures Above(s, hand, multiset{}, out)
  {
    forall x ensures ShellAt(s.hold, multiset{}, x) {
      assert ShellAt(s.hold, sh, x);
    }
  }

  /** A job that starts with all that is in hand. */
  lemma StartJob(s: State, k: nat, j: Job, out: multiset<Addr>)
    requires Above(s, JobLive(j), JobShells(j), out) && Unused(s, k) && JobOk(j)
    ensures Upper(PutJob(s, k, j), out)
  {
    Edit(s, InFlight(k), Work(j), JobLive(j), JobShells(j), multiset{}, multiset{}, out);
  }

  lemma StartStale(s: State, k: nat, full: bool, m: Mag, out: multiset<Addr>)
    requires Above(s, All(full, m), multiset{m.id}, out) && Unused(s, k) && MagOk(m)
    ensures Upper(PutJob(s, k, Stale(full, m, 0)), out)
  {
    WholeLive(m);
    StartJob(s, k, Stale(full, m, 0), out);
  }

  /** A job that goes on to `j`, letting go of `hand` and `sh`. */
  lemma GoOn(s: State, k: nat, j: Job, hand: multiset<Addr>, sh: multiset<nat>, out: multiset<Addr>)
    requires Upper(s, out) && IsJob(s, k) && JobOk(j)
    requires JobLive(j) + hand == JobLive(JobAt(s, k)) && JobShells(j) + sh == JobShells(JobAt(s, k))
    ensures Above(PutJob(s, k, j), hand, sh, out)
  {
    Edit(s, InFlight(k), Work(j), multiset{}, multiset{}, hand, sh, out);
  }

  /** A job that takes in what is in hand. */
  lemma JobGets(s: State, k: nat, j: Job, hand: multiset<Addr>, sh: multiset<nat>, out: multiset<Addr>)
    requires Above(s, hand, sh, out) && IsJob(s, k) && JobOk(j)
    requires JobLive(j) == JobLive(JobAt(s, k)) + hand && JobShells(j) == JobShells(JobAt(s, k)) + sh
    ensures Upper(PutJob(s, k, j), out)
  {
    Edit(s, InFlight(k), Work(j), hand, sh, multiset{}, multiset{}, out);
  }

  lemma JobIsOk(s: State, k: nat, out: multiset<Addr>)
    requires Upper(s, out) && IsJob(s, k)
    ensures JobOk(JobAt(s, k))
  {
    assert GoodAt(s.hold, InFlight(k), SizeOf(s.magtype));
  }

  /** A job that ends, handing over everything. */
  lemma EndJob(s: State, k: nat, out: multiset<Addr>)
    requires Upper(s, out) && IsJob(s, k)
    ensures Above(DropJob(s, k), JobLive(JobAt(s, k)), JobShells(JobAt(s, k)), out)
  {
    Drop(s, k, multiset{}, multiset{}, JobLive(JobAt(s, k)), JobShells(JobAt(s, k)), out);
  }
}
