/**
 * The magazine, depot, restartable-sequence and per-thread layers of one cache, above its
 * slab layer.  Every buffer the slab layer has handed out sits in exactly one holder: a depot
 * list, a CPU's magazine pair, a restartable-sequence slot, a thread's bin and magazines, an
 * operation in flight, or the application.
 */
module MagazineState {
  import opened Collections
  import SlabLayer
  import SlabInvariants

  type Addr = SlabLayer.Addr

  /**
   * A magazine shell.  Its capacity is its own number of slots (umem_mag_capacity), whatever
   * magtype the cache uses now.  How many slots are live is known only to whoever holds it;
   * the slots above that count keep stale values.
   */
  datatype Mag = Mag(id: nat, slots: seq<Addr>)

  /** A magazine in use with its round count; -1 (or 0) and no magazine when absent. */
  datatype Pos = Pos(mag: Option<Mag>, rounds: int)

  /** cc_lock: free, or held by a thread that wants, or has popped, a depot magazine. */
  datatype CcLock = Unlocked | Wants(full: bool) | Has(full: bool, mag: Mag)

  /** Where a thread is in the slow part of its per-thread allocation or free. */
  datatype PtcOp = Ready | Refilling | Refill(mag: Mag) | Flushing(buf: Addr) | Flush(buf: Addr, mag: Mag)

  /** An operation some thread has in progress, with what it holds privately. */
  datatype Job =
    | Freeing(buf: Addr)                                  // on its way to a magazine or the slab layer
    | Popped(full: bool, mag: Mag)                        // off the depot for a slot, magtype not yet tested
    | Arming(full: bool, mag: Mag, tries: nat)            // umem_rseq_reload holds the new magazine
    | Swapping(full: bool, mag: Mag, tries: nat, cpu: nat, was: Pos)  // slot detached, not yet attached
    | Returning(full: bool, mag: Mag, rounds: int)        // umem_ptc_mag_return, before its tests
    | Draining(mag: Mag, rounds: int, r: nat, keep: bool) // umem_mag_drain at round r
    | Pushing(full: bool, mag: Mag)                       // about to go on a depot list
    | Shell(mag: Mag)                                     // shell on its way back to its magtype cache
    | Fresh(mag: Mag, cpu: nat)                           // shell allocated with cc_lock dropped
    | Stale(full: bool, mag: Mag, r: nat)                 // umem_depot_destroy_stale at slot r
    | Destroying(mag: Mag, rounds: int, r: nat)           // umem_magazine_destroy at round r

  /** Who can hold buffers.  List 0 is the global depot list, the others are CPU stripes. */
  datatype Place = Full(l: nat) | Empty(l: nat) | Cpu(i: nat) | Rseq(i: nat) | Thr(t: nat) | InFlight(k: nat)

  datatype Holder =
    | List(mags: seq<Mag>)
    | Pair(loaded: Pos, prev: Pos, magsize: nat, lock: CcLock)
    | Slot(pos: Pos, magsize: nat)
    | Ptc(bin: seq<Addr>, load: Pos, loadSize: nat, other: Pos, otherSize: nat, op: PtcOp)
    | Work(job: Job)

  /** The update thread: idle, purging CPU `k` next, or enabling CPU `k` next. */
  datatype Phase = Quiet | Purging(k: nat) | Enabling(k: nat)

  type Holders = map<Place, Holder>

  datatype State = State(
    hold: Holders,
    client: set<Addr>,
    slab: SlabLayer.State,
    magtype: nat,
    ncpus: nat,
    phase: Phase)

  /** Rounds per magazine of each umem_magtype row. */
  const MAGSIZES: seq<nat> := [1, 3, 7, 63, 127, 255]

  function SizeOf(magtype: nat): (n: nat)
    ensures n >= 1
  {
    if magtype < |MAGSIZES| then MAGSIZES[magtype] else 255
  }

  // ---- what each holder holds ----

  ghost function Live(m: Mag, from: int, to: int): multiset<Addr> {
    if 0 <= from <= to <= |m.slots| then multiset(m.slots[from..to]) else multiset{}
  }

  ghost function All(full: bool, m: Mag): multiset<Addr> {
    if full then multiset(m.slots) else multiset{}
  }

  ghost function PosLive(p: Pos): multiset<Addr> {
    if p.mag.Some? then Live(p.mag.value, 0, p.rounds) else multiset{}
  }

  ghost function ListLive(mags: seq<Mag>): multiset<Addr> {
    if mags == [] then multiset{} else multiset(mags[0].slots) + ListLive(mags[1..])
  }

  ghost function LockLive(k: CcLock): multiset<Addr> {
    if k.Has? then All(k.full, k.mag) else multiset{}
  }

  ghost function OpLive(op: PtcOp): multiset<Addr> {
    match op
    case Refill(m) => multiset(m.slots)
    case Flushing(b) => multiset{b}
    case Flush(b, m) => multiset{b}
    case _ => multiset{}
  }

  ghost function JobLive(j: Job): multiset<Addr> {
    match j
    case Freeing(b) => multiset{b}
    case Popped(f, m) => All(f, m)
    case Arming(f, m, _) => All(f, m)
    case Swapping(f, m, _, _, was) => All(f, m) + PosLive(was)
    case Returning(_, m, n) => Live(m, 0, n)
    case Draining(m, n, r, _) => Live(m, r, n)
    case Pushing(f, m) => All(f, m)
    case Stale(f, m, r) => if f then Live(m, r, |m.slots|) else multiset{}
    case Destroying(m, n, r) => Live(m, r, n)
    case _ => multiset{}
  }

  /** The live buffers of a holder; a full-list magazine counts every slot, an empty-list one none. */
  ghost function Holds(p: Place, h: Holder): multiset<Addr> {
    match h
    case List(mags) => if p.Full? then ListLive(mags) else multiset{}
    case Pair(a, b, _, k) => PosLive(a) + PosLive(b) + LockLive(k)
    case Slot(a, _) => PosLive(a)
    case Ptc(bin, a, _, b, _, op) => multiset(bin) + PosLive(a) + PosLive(b) + OpLive(op)
    case Work(j) => JobLive(j)
  }

  // ---- which shells each holder has ----

  ghost function PosShell(p: Pos): multiset<nat> {
    if p.mag.Some? then multiset{p.mag.value.id} else multiset{}
  }

  ghost function ListShells(mags: seq<Mag>): multiset<nat> {
    if mags == [] then multiset{} else multiset{mags[0].id} + ListShells(mags[1..])
  }

  ghost function OpShell(op: PtcOp): multiset<nat> {
    match op
    case Refill(m) => multiset{m.id}
    case Flush(_, m) => multiset{m.id}
    case _ => multiset{}
  }

  ghost function JobShells(j: Job): multiset<nat> {
    match j
    case Freeing(_) => multiset{}
    case Swapping(_, m, _, _, was) => multiset{m.id} + PosShell(was)
    case _ => multiset{j.mag.id}
  }

  ghost function Shells(h: Holder): multiset<nat> {
    match h
    case List(mags) => ListShells(mags)
    case Pair(a, b, _, k) => PosShell(a) + PosShell(b) + (if k.Has? then multiset{k.mag.id} else multiset{})
    case Slot(a, _) => PosShell(a)
    case Ptc(_, a, _, b, _, op) => PosShell(a) + PosShell(b) + OpShell(op)
    case Work(j) => JobShells(j)
  }

  ghost function HoldsAll(hold: Holders): map<Place, multiset<Addr>> {
    map p | p in hold :: Holds(p, hold[p])
  }

  ghost function ShellsAll(hold: Holders): map<Place, multiset<nat>> {
    map p | p in hold :: Shells(hold[p])
  }

  /** Every buffer above the slab layer, once per place it sits in. */
  ghost function Everything(s: State): multiset<Addr> {
    Pool(HoldsAll(s.hold)) + multiset(s.client)
  }

  ghost function EveryShell(hold: Holders): multiset<nat> {
    Pool(ShellsAll(hold))
  }

  // ---- what holds of each holder on its own ----

  ghost predicate MagOk(m: Mag) { |m.slots| >= 1 }

  ghost predicate PosOk(p: Pos, size: nat) {
    p.mag.Some? ==> MagOk(p.mag.value) && |p.mag.value.slots| == size && 0 <= p.rounds <= size
  }

  /** (uint_t)rounds < magsize: false for the -1 of an absent magazine. */
  predicate HasRoom(p: Pos, magsize: nat) {
    0 <= p.rounds < magsize
  }

  /**
   * A CPU's pair.  With magsize 0 both magazines are absent; otherwise magsize is the current
   * magtype's, both shells have that capacity, and the previous one is exactly empty or full.
   */
  ghost predicate PairOk(h: Holder, size: nat)
    requires h.Pair?
  {
    && (h.magsize == 0 || h.magsize == size)
    && PosOk(h.loaded, h.magsize) && PosOk(h.prev, h.magsize)
    && (h.loaded.mag.None? ==> h.loaded.rounds == -1 && h.prev.mag.None?)
    && (h.prev.mag.None? ==> h.prev.rounds == -1)
    && (h.prev.mag.Some? ==> h.prev.rounds == 0 || h.prev.rounds == h.magsize)
    && (match h.lock
        case Unlocked => true
        case Wants(f) => LockedFor(h, f)
        case Has(f, m) => LockedFor(h, f) && MagOk(m))
  }

  /** What the code saw under cc_lock before it went to the depot. */
  predicate LockedFor(h: Holder, full: bool)
    requires h.Pair?
  {
    && h.magsize > 0
    && (if full then h.loaded.rounds <= 0 && h.prev.rounds <= 0
        else !HasRoom(h.loaded, h.magsize) && h.prev.rounds != 0)
  }

  /**
   * umem_ptc_mag_check: each magazine is bounded by its own capacity.  A thread refills only
   * when both are empty, and asks for an empty one only after giving up the loaded one.
   */
  ghost predicate PtcOk(h: Holder)
    requires h.Ptc?
  {
    && PosOk(h.load, h.loadSize) && PosOk(h.other, h.otherSize)
    && (h.load.mag.None? ==> h.load.rounds == 0) && (h.other.mag.None? ==> h.other.rounds == 0)
    && (match h.op
        case Ready => true
        case Refilling => h.load.rounds == 0 && h.other.rounds == 0
        case Refill(m) => h.load.rounds == 0 && h.other.rounds == 0 && MagOk(m)
        case Flushing(_) => h.load.mag.None?
        case Flush(_, m) => h.load.mag.None? && MagOk(m))
  }

  ghost predicate JobOk(j: Job) {
    match j
    case Freeing(_) => true
    case Swapping(_, m, _, _, was) => MagOk(m) && (was.mag.Some? ==> PosOk(was, |was.mag.value.slots|))
    case Returning(_, m, n) => MagOk(m) && 0 <= n <= |m.slots|
    case Draining(m, n, r, _) => MagOk(m) && r <= n <= |m.slots|
    case Stale(_, m, r) => MagOk(m) && r <= |m.slots|
    case Destroying(m, n, r) => MagOk(m) && r <= n <= |m.slots|
    case _ => MagOk(j.mag)
  }

  ghost predicate Good(p: Place, h: Holder, size: nat) {
    match h
    case List(mags) => (p.Full? || p.Empty?) && forall m :: m in mags ==> MagOk(m)
    case Pair(_, _, _, _) => p.Cpu? && PairOk(h, size)
    case Slot(a, n) => p.Rseq? && PosOk(a, n)
    case Ptc(_, _, _, _, _, _) => p.Thr? && PtcOk(h)
    case Work(j) => p.InFlight? && JobOk(j)
  }

  ghost predicate GoodAt(hold: Holders, p: Place, size: nat) {
    p in hold ==> Good(p, hold[p], size)
  }

  ghost predicate AllGood(hold: Holders, size: nat) { forall p :: GoodAt(hold, p, size) }

  /** The update thread has purged CPU `i` and not yet enabled it again. */
  predicate Off(phase: Phase, i: nat) {
    match phase
    case Quiet => false
    case Purging(k) => i < k
    case Enabling(k) => i >= k
  }

  ghost predicate PhaseAt(hold: Holders, ncpus: nat, phase: Phase, p: Place) {
    p.Cpu? ==>
      && (p in hold <==> p.i < ncpus)
      && (p in hold ==> hold[p].Pair? && (Off(phase, p.i) ==> hold[p].magsize == 0))
  }

  /** A CPU already purged, or not yet enabled, has its magazine layer off. */
  ghost predicate PhaseOk(s: State) {
    (s.phase.Quiet? || s.phase.k <= s.ncpus) && forall p :: PhaseAt(s.hold, s.ncpus, s.phase, p)
  }

  /** Buffer `b` is counted as often as `out` says, and at most once. */
  ghost predicate CountedAt(s: State, hand: multiset<Addr>, out: multiset<Addr>, b: Addr) {
    Everything(s)[b] + hand[b] == out[b] <= 1
  }

  ghost predicate ShellAt(hold: Holders, shells: multiset<nat>, id: nat) {
    EveryShell(hold)[id] + shells[id] <= 1
  }

  /**
   * The layers above the slabs account for exactly `out`, counting what the step in progress
   * has in `hand`; no buffer and no shell is counted twice.
   */
  ghost predicate Above(s: State, hand: multiset<Addr>, shells: multiset<nat>, out: multiset<Addr>) {
    && AllGood(s.hold, SizeOf(s.magtype))
    && PhaseOk(s)
    && (forall b :: CountedAt(s, hand, out, b))
    && (forall id :: ShellAt(s.hold, shells, id))
  }

  ghost predicate Upper(s: State, out: multiset<Addr>) {
    Above(s, multiset{}, multiset{}, out)
  }

  ghost predicate Inv(s: State) {
    SlabLayer.Inv(s.slab) && Upper(s, multiset(SlabLayer.Outstanding(s.slab)))
  }
}
