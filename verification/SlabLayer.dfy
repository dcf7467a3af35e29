/**
 * The slab layer of one cache: the circular slab list with its cache_freelist
 * pointer, reference counts, page states, and the reclaim pass.  Each step is one
 * hold of cache_lock; between steps any thread may take the next one.
 */
module SlabLayer {
  import opened Collections
  import AllocatedHash

  type Addr = nat
  type SlabId = nat

  const U32: nat := 0x1_0000_0000

  datatype PageState = Active | Dirty | Clean | Reclaiming

  /**
   * umem_slab_t.  `free` is the slab_head chain, head first.  `emptied` counts the
   * seconds of reclaim passes since the slab last became empty; no step reads it.
   */
  datatype Slab = Slab(
    chunks: set<Addr>,
    free: seq<Addr>,
    refcnt: int,
    state: PageState,
    idle: nat,
    emptied: nat)

  datatype Config = Config(hashed: bool, slabsize: nat, unit: nat, delay: nat, interval: nat)

  /**
   * `slabs` holds every slab that has a span.  `order` lists the linked ones, from
   * cache_nullslab.slab_next on, and `freelist` is the position of cache_freelist in it
   * (|order| when it is cache_nullslab).  A slab not in `order` is private to some thread:
   * created and not yet linked, or unlinked and not yet given back to the arena.  `pass`
   * is the reclaim_list of the pass in progress.
   */
  datatype State = State(
    cfg: Config,
    slabs: map<SlabId, Slab>,
    order: seq<SlabId>,
    freelist: nat,
    buftotal: int,
    table: AllocatedHash.Table,
    pass: Option<seq<SlabId>>)

  // ---- what holds at every release of cache_lock ----

  function Used(sp: Slab): set<Addr> {
    sp.chunks - (set a | a in sp.free)
  }

  /** Buffers the slab layer has handed out and not got back. */
  ghost function Outstanding(s: State): set<Addr> {
    set id, a | id in s.slabs && a in Used(s.slabs[id]) :: a
  }

  /** Freelist length plus reference count is the chunk count, and the freelist is sound. */
  ghost predicate Counted(sp: Slab) {
    && sp.chunks != {} && 0 !in sp.chunks && 0 <= sp.refcnt
    && |sp.free| + sp.refcnt == |sp.chunks|
    && NoDup(sp.free) && (forall a :: a in sp.free ==> a in sp.chunks)
  }

  ghost predicate AgeOk(cfg: Config, sp: Slab) {
    sp.refcnt == 0 ==>
      && sp.idle == sp.emptied % U32
      && (sp.state.Clean? || sp.state.Reclaiming? ==> sp.emptied >= cfg.delay)
      && (cfg.interval == 0 ==> sp.emptied == 0)
  }

  /** A linked slab is ACTIVE exactly while it has buffers out. */
  ghost predicate Consistent(cfg: Config, sp: Slab) {
    (sp.refcnt > 0 <==> sp.state.Active?) && AgeOk(cfg, sp)
  }

  /** A private slab has no buffer out and is not being reclaimed. */
  ghost predicate Private(sp: Slab) {
    sp.refcnt == 0 && !sp.state.Reclaiming?
  }

  ghost predicate Linked(order: seq<SlabId>, slabs: map<SlabId, Slab>) {
    NoDup(order) && forall id :: id in order ==> id in slabs
  }

  /** In front of cache_freelist every slab is full or idle; from it on, none is full. */
  ghost predicate Parked(order: seq<SlabId>, freelist: nat, slabs: map<SlabId, Slab>)
    requires Linked(order, slabs)
  {
    && freelist <= |order|
    && (forall i {:trigger order[i]} :: 0 <= i < freelist ==>
          slabs[order[i]].free == [] || slabs[order[i]].refcnt == 0)
    && (forall i {:trigger order[i]} :: freelist <= i < |order| ==> slabs[order[i]].free != [])
  }

  /** What the walks over the slab list rely on; every state of a run has it. */
  ghost predicate Shaped(s: State) {
    s.cfg.slabsize > 0 && Linked(s.order, s.slabs) && Parked(s.order, s.freelist, s.slabs)
  }

  ghost predicate ApartAt(m: map<SlabId, Slab>, i: SlabId, j: SlabId) {
    i in m && j in m && i != j ==> m[i].chunks !! m[j].chunks
  }

  /** No chunk belongs to two slabs. */
  ghost predicate Apart(m: map<SlabId, Slab>) { forall i, j :: ApartAt(m, i, j) }

  /** Non-hashed caches: every buffer's address leads back to its own slab. */
  ghost predicate Homed(cfg: Config, m: map<SlabId, Slab>)
    requires cfg.slabsize > 0
  {
    forall id, a :: id in m && a in m[id].chunks ==> a / cfg.slabsize * cfg.slabsize == id
  }

  /** Hashed caches: the table holds exactly the outstanding addresses, each with its slab. */
  ghost predicate TableExact(cfg: Config, table: AllocatedHash.Table, m: map<SlabId, Slab>) {
    && AllocatedHash.TableOk(table, cfg.unit)
    && forall e :: AllocatedHash.Has(table, cfg.unit, e) <==> e.slab in m && e.addr in Used(m[e.slab])
  }

  ghost predicate Findable(s: State) {
    s.cfg.slabsize > 0 &&
    if s.cfg.hashed then TableExact(s.cfg, s.table, s.slabs) else Homed(s.cfg, s.slabs)
  }

  ghost predicate PassOk(s: State)
    requires Linked(s.order, s.slabs)
  {
    match s.pass
    case None => forall id :: id in s.order ==> !s.slabs[id].state.Reclaiming?
    case Some(l) => NoDup(l) && forall id :: id in l <==> id in s.order && s.slabs[id].state.Reclaiming?
  }

  /** Every chunk of every linked slab: cache_buftotal counts these. */
  ghost function LinkedChunks(order: seq<SlabId>, slabs: map<SlabId, Slab>): map<SlabId, multiset<Addr>> {
    map id | id in order && id in slabs :: multiset(slabs[id].chunks)
  }

  ghost function Tally(order: seq<SlabId>, slabs: map<SlabId, Slab>): nat {
    |Pool(LinkedChunks(order, slabs))|
  }

  ghost predicate ConfigOk(cfg: Config) {
    cfg.slabsize > 0 && cfg.delay < U32 && cfg.interval < U32
  }

  ghost predicate SlabAt(cfg: Config, order: seq<SlabId>, slabs: map<SlabId, Slab>, x: Option<SlabId>, id: SlabId) {
    id in slabs ==>
      && Counted(slabs[id])
      && (id in order && x != Some(id) ==> Consistent(cfg, slabs[id]))
      && (id !in order ==> Private(slabs[id]))
  }

  /** Everything about the slabs except that `x`, just linked, may still be unused. */
  ghost predicate SlabsOkBut(s: State, x: Option<SlabId>) {
    forall id :: SlabAt(s.cfg, s.order, s.slabs, x, id)
  }

  ghost predicate InvBut(s: State, x: Option<SlabId>) {
    && ConfigOk(s.cfg)
    && Linked(s.order, s.slabs) && Parked(s.order, s.freelist, s.slabs)
    && SlabsOkBut(s, x)
    && Apart(s.slabs)
    && s.buftotal == Tally(s.order, s.slabs)
    && Findable(s)
    && PassOk(s)
  }

  ghost predicate Inv(s: State) {
    InvBut(s, None)
  }

  // ---- umem_slab_create / umem_slab_destroy: the parts outside cache_lock ----

  /** A slab as umem_slab_create leaves it: ACTIVE, refcnt 0, every chunk on its freelist. */
  ghost predicate Created(sp: Slab) {
    Counted(sp) && sp.refcnt == 0 && sp.state.Active?
  }

  /** vmem_alloc's contract: the span, hence each chunk, is in no other live slab. */
  ghost predicate CanCreate(s: State, id: SlabId, sp: Slab) {
    && ConfigOk(s.cfg) && id !in s.slabs && Created(sp)
    && (forall i :: i in s.slabs ==> s.slabs[i].chunks !! sp.chunks)
    && (!s.cfg.hashed ==> forall a :: a in sp.chunks ==> a / s.cfg.slabsize * s.cfg.slabsize == id)
  }

  function Create(s: State, id: SlabId, sp: Slab): State {
    s.(slabs := s.slabs[id := sp])
  }

  /** umem_slab_destroy: the span of a private slab goes back to the arena. */
  function Destroy(s: State, id: SlabId): State {
    s.(slabs := s.slabs - {id})
  }

  // ---- umem_slab_alloc ----

  /** First position from `j` on that is not being reclaimed and has a free buffer. */
  function UsableFrom(s: State, j: nat): (k: nat)
    requires j <= |s.order| && forall id :: id in s.order ==> id in s.slabs
    ensures j <= k <= |s.order|
    ensures k < |s.order| ==> !s.slabs[s.order[k]].state.Reclaiming? && s.slabs[s.order[k]].free != []
    ensures forall i {:trigger s.order[i]} :: j <= i < k ==>
        s.order[i] in s.slabs && (s.slabs[s.order[i]].state.Reclaiming? || s.slabs[s.order[i]].free == [])
    decreases |s.order| - j
  {
    if j == |s.order| then j
    else
      assert s.order[j] in s.slabs;
      if s.slabs[s.order[j]].state.Reclaiming? || s.slabs[s.order[j]].free == [] then UsableFrom(s, j + 1)
      else j
  }

  /** The slab umem_slab_alloc takes from; |order| when it must create one. */
  function Target(s: State): (k: nat)
    requires s.freelist <= |s.order| && forall id :: id in s.order ==> id in s.slabs
    ensures k <= |s.order|
    ensures k < |s.order| ==> s.order[k] in s.slabs && s.slabs[s.order[k]].free != []
  {
    if s.freelist == |s.order| then |s.order|
    else
      assert s.order[s.freelist] in s.slabs;
      var head := s.slabs[s.order[s.freelist]];
      if head.free == [] then |s.order|
      else if head.state.Reclaiming? then UsableFrom(s, s.freelist + 1)
      else s.freelist
  }

  function Hashed(s: State, e: AllocatedHash.Bufctl): AllocatedHash.Table {
    if s.cfg.hashed && |s.table| > 0 && s.cfg.unit > 0 then AllocatedHash.Insert(s.table, s.cfg.unit, e) else s.table
  }

  /** Take the first free buffer of the slab at position `j`. */
  function Take(s: State, j: nat): (State, Addr)
    requires j < |s.order| && s.order[j] in s.slabs && s.slabs[s.order[j]].free != []
  {
    var id := s.order[j];
    var sp := s.slabs[id];
    var buf := sp.free[0];
    var sp' := sp.(free := sp.free[1..], refcnt := sp.refcnt + 1, state := Active,
                   idle := if sp.state.Active? then sp.idle else 0);
    (s.(slabs := s.slabs[id := sp'],
        freelist := if sp'.free == [] then j + 1 else s.freelist,
        table := Hashed(s, AllocatedHash.Bufctl(buf, id))), buf)
  }

  /** Link a created slab in front of cache_freelist and point cache_freelist at it. */
  function Link(s: State, id: SlabId): State
    requires id in s.slabs && s.freelist <= |s.order|
  {
    s.(order := InsertAt(s.order, s.freelist, id),
       buftotal := s.buftotal + |s.slabs[id].chunks|)
  }

  // ---- umem_slab_free ----

  /** The slab a freed address names: by its bufctl, or by the header its address leads to. */
  function SlabOf(s: State, a: Addr): Option<SlabId>
    requires s.cfg.slabsize > 0
  {
    if s.cfg.hashed then
      if |s.table| == 0 || s.cfg.unit == 0 then None
      else
        match AllocatedHash.Find(s.table, s.cfg.unit, a)
        case None => None
        case Some(e) =>
          if e.slab in s.order && e.slab in s.slabs && a in s.slabs[e.slab].chunks then Some(e.slab) else None
    else
      var id := a / s.cfg.slabsize * s.cfg.slabsize;
      if id in s.order && id in s.slabs && a in s.slabs[id].chunks then Some(id) else None
  }

  /** Take the slab at position `k` out of the list, keeping cache_freelist on its successor. */
  function Unlink(s: State, k: nat): State
    requires k < |s.order| && s.order[k] in s.slabs
  {
    s.(order := RemoveAt(s.order, k),
       freelist := if k < s.freelist then s.freelist - 1 else s.freelist,
       buftotal := s.buftotal - |s.slabs[s.order[k]].chunks|)
  }

  /** Move a full slab (position `k`) to the head of the freelist part. */
  function Requeue(s: State, k: nat): State
    requires k < s.freelist <= |s.order|
  {
    s.(order := InsertAt(RemoveAt(s.order, k), s.freelist - 1, s.order[k]), freelist := s.freelist - 1)
  }

  /** The buffer is back on its slab's chain; an emptied slab is DIRTY when it is retained. */
  function Returned(sp: Slab, a: Addr, retain: bool): Slab {
    var sp' := sp.(free := [a] + sp.free, refcnt := sp.refcnt - 1);
    if sp'.refcnt == 0 && retain then sp'.(state := Dirty, idle := 0, emptied := 0) else sp'
  }

  /** The state of umem_slab_free once the buffer is on its slab's chain. */
  function Put(s: State, id: SlabId, a: Addr, retain: bool): State
    requires Linked(s.order, s.slabs) && Parked(s.order, s.freelist, s.slabs) && id in s.order
  {
    var s1 := if s.slabs[id].free == [] then Requeue(s, IndexOf(s.order, id)) else s;
    s1.(slabs := s.slabs[id := Returned(s.slabs[id], a, retain)],
        table := if s.cfg.hashed && |s.table| > 0 && s.cfg.unit > 0
                 then AllocatedHash.Remove(s.table, s.cfg.unit, a) else s.table)
  }

  function Free(s: State, a: Addr, retain: bool): State
    requires s.cfg.slabsize > 0 && Linked(s.order, s.slabs) && Parked(s.order, s.freelist, s.slabs)
  {
    match SlabOf(s, a)
    case None => s
    case Some(id) =>
      var s1 := Put(s, id, a, retain);
      if s1.slabs[id].refcnt == 0 && !retain then
        assert id in s1.order by { assert s.slabs[id].free == [] ==> s1.order[s1.freelist] == id; }
        Unlink(s1, IndexOf(s1.order, id))
      else s1
  }

  // ---- umem_cache_reclaim_pages ----

  /** What one pass does to one slab. */
  function Age(cfg: Config, sp: Slab): Slab {
    if sp.refcnt != 0 || sp.state.Active? || sp.state.Reclaiming? then sp
    else
      var idle := (sp.idle + cfg.interval) % U32;
      var sp' := sp.(idle := idle, emptied := sp.emptied + cfg.interval);
      if sp.state.Dirty? && idle >= cfg.delay then sp'.(state := Reclaiming) else sp'
  }

  /** Does the pass unlink `sp` for destruction?  The threshold is uint32 arithmetic. */
  predicate Doomed(cfg: Config, sp: Slab) {
    sp.refcnt == 0 && sp.state.Clean? && (sp.idle + cfg.interval) % U32 >= (2 * cfg.delay) % U32
  }

  ghost function Keeps(s: State): SlabId -> bool {
    id => id in s.slabs && !Doomed(s.cfg, s.slabs[id])
  }

  /** The whole walk under cache_lock; `l` is the reclaim_list it collects. */
  ghost predicate Collect(s: State, s': State, l: seq<SlabId>) {
    && Linked(s.order, s.slabs) && s.freelist <= |s.order|
    && s' == s.(slabs := map id | id in s.slabs ::
                           (if id in s.order then Age(s.cfg, s.slabs[id]) else s.slabs[id]),
                order := Filter(s.order, Keeps(s)),
                freelist := |Filter(s.order[..s.freelist], Keeps(s))|,
                buftotal := Tally(Filter(s.order, Keeps(s)), s.slabs),
                pass := Some(l))
    && NoDup(l) && forall id :: id in l <==> id in s'.order && s'.slabs[id].state.Reclaiming?
  }

  /** RECLAIMING slabs of the pass become CLEAN once the lock is retaken. */
  function Publish(s: State): State {
    match s.pass
    case None => s
    case Some(l) =>
      s.(slabs := map id | id in s.slabs ::
                    (if id in l then s.slabs[id].(state := Clean) else s.slabs[id]),
         pass := None)
  }

  // ---- umem_cache_drain_slabs ----

  ghost function InUse(s: State): SlabId -> bool {
    id => id in s.slabs && s.slabs[id].refcnt != 0
  }

  /** Unlink every slab with nothing outstanding, when the cache is destroyed. */
  ghost function Drain(s: State): State
    requires s.freelist <= |s.order|
  {
    s.(order := Filter(s.order, InUse(s)),
       freelist := |Filter(s.order[..s.freelist], InUse(s))|,
       buftotal := Tally(Filter(s.order, InUse(s)), s.slabs))
  }
}
