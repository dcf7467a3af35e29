/**
 * The per-thread cache: a bin and a pair of magazines, each used against its own capacity.
 * A refill or a flush is several steps: the depot is asked, its answer is checked against the
 * current magazine type, and only then is it installed and the displaced magazine sent on;
 * `op` says how far the thread has come.  The lemmas ending in Keeps say that a step leaves the
 * invariant over the cache true, whatever the other threads did in between.
 */
module ThreadSteps {
  import opened Collections
  import opened MagazineState
  import opened MagazineMoves

  datatype ThreadStep =
    | BinTake(t: nat)
    | BinPut(t: nat, k: nat)
    | BinFlush(t: nat, k: nat)
    | MagTake(t: nat)
    | MagPut(t: nat, k: nat)
    | PtcSwap(t: nat)
    | RefillStart(t: nat)
    | RefillPop(t: nat, l: nat)
    | RefillReject(t: nat, k: nat)
    | RefillInstall(t: nat, k: nat)
    | RefillGiveUp(t: nat)
    | FlushStart(t: nat, k: nat, k2: nat)
    | FlushPop(t: nat, l: nat)
    | FlushReject(t: nat, k: nat)
    | FlushPrime(t: nat, id: nat)
    | FlushInstall(t: nat)
    | FlushGiveUp(t: nat, k: nat)
    | ExitLoaded(t: nat, k: nat)
    | ExitOther(t: nat, k: nat)

  predicate AtRest(s: State, t: nat) { IsThr(s, t) && ThrAt(s, t).op.Ready? }

  predicate Room(p: Pos, size: nat) { p.mag.Some? && p.rounds < size }

  /** The swap of _umem_alloc, and the one of _umem_free. */
  predicate SwapGuard(h: Holder)
    requires h.Ptc?
  {
    || (h.load.rounds <= 0 && h.other.rounds > 0)
    || (!Room(h.load, h.loadSize) && Room(h.other, h.otherSize))
  }

  ghost predicate CanStep(s: State, a: ThreadStep) {
    match a
    case BinTake(t) => AtRest(s, t) && ThrAt(s, t).bin != []
    case BinPut(t, k) => AtRest(s, t) && IsJob(s, k) && JobAt(s, k).Freeing?
    case BinFlush(t, k) => AtRest(s, t) && ThrAt(s, t).bin != [] && Unused(s, k)
    case MagTake(t) => AtRest(s, t) && ThrAt(s, t).bin == [] && ThrAt(s, t).load.rounds > 0
    case MagPut(t, k) =>
      AtRest(s, t) && Room(ThrAt(s, t).load, ThrAt(s, t).loadSize) && IsJob(s, k) && JobAt(s, k).Freeing?
    case PtcSwap(t) => AtRest(s, t) && SwapGuard(ThrAt(s, t))
    case RefillStart(t) =>
      AtRest(s, t) && ThrAt(s, t).bin == [] && ThrAt(s, t).load.rounds <= 0 && ThrAt(s, t).other.rounds <= 0
    case RefillPop(t, l) => IsThr(s, t) && ThrAt(s, t).op.Refilling? && CanPop(s, true, l)
    case RefillReject(t, k) =>
      IsThr(s, t) && ThrAt(s, t).op.Refill? && !IsValid(s, ThrAt(s, t).op.mag) && Unused(s, k)
    case RefillInstall(t, k) => IsThr(s, t) && ThrAt(s, t).op.Refill? && Unused(s, k)
    case RefillGiveUp(t) => IsThr(s, t) && ThrAt(s, t).op.Refilling?
    case FlushStart(t, k, k2) =>
      && AtRest(s, t) && !Room(ThrAt(s, t).load, ThrAt(s, t).loadSize)
      && !Room(ThrAt(s, t).other, ThrAt(s, t).otherSize)
      && IsJob(s, k) && JobAt(s, k).Freeing? && Unused(s, k2)
    case FlushPop(t, l) => IsThr(s, t) && ThrAt(s, t).op.Flushing? && CanPop(s, false, l)
    case FlushReject(t, k) =>
      IsThr(s, t) && ThrAt(s, t).op.Flush? && !IsValid(s, ThrAt(s, t).op.mag) && Unused(s, k)
    case FlushPrime(t, id) => IsThr(s, t) && ThrAt(s, t).op.Flushing? && id !in EveryShell(s.hold)
    case FlushInstall(t) => IsThr(s, t) && ThrAt(s, t).op.Flush?
    case FlushGiveUp(t, k) => IsThr(s, t) && ThrAt(s, t).op.Flushing? && Unused(s, k)
    case ExitLoaded(t, k) => AtRest(s, t) && ThrAt(s, t).load.mag.Some? && Unused(s, k)
    case ExitOther(t, k) => AtRest(s, t) && ThrAt(s, t).other.mag.Some? && Unused(s, k)
  }

  // ---- what each step does ----

  const Gone: Pos := Pos(None, 0)

  function DoMagTake(s: State, t: nat): State
    requires IsThr(s, t)
  {
    var h := ThrAt(s, t);
    if h.load.mag.None? then s
    else
      var (p, b) := PopPos(h.load);
      Put(s, Thr(t), h.(load := p)).(client := s.client + {b})
  }

  function Swapped(h: Holder): Holder
    requires h.Ptc?
  {
    Ptc(h.bin, h.other, h.otherSize, h.load, h.loadSize, h.op)
  }

  /** The popped magazine becomes the loaded one; the old loaded one displaces the previous one. */
  function Refilled(h: Holder): Holder
    requires h.Ptc? && h.op.Refill?
  {
    var cap := |h.op.mag.slots|;
    if h.load.mag.Some? then Ptc(h.bin, Pos(Some(h.op.mag), cap), cap, h.load, h.loadSize, Ready)
    else Ptc(h.bin, Pos(Some(h.op.mag), cap), cap, h.other, h.otherSize, Ready)
  }

  function DoRefill(s: State, t: nat, k: nat): State
    requires IsThr(s, t) && ThrAt(s, t).op.Refill?
  {
    var h := ThrAt(s, t);
    var s1 := Put(s, Thr(t), Refilled(h));
    if h.load.mag.Some? && h.other.mag.Some?
    then PutJob(s1, k, Returning(false, h.other.mag.value, h.other.rounds)) else s1
  }

  function Handed(p: Pos): Job {
    if p.mag.Some? then Returning(true, p.mag.value, p.rounds) else Freeing(0)
  }

  /** The loaded magazine goes to the depot with its count; the buffer stays with the thread. */
  function DoFlushStart(s: State, t: nat, k: nat, k2: nat): State
    requires IsThr(s, t) && IsJob(s, k) && JobAt(s, k).Freeing? && Unused(s, k2)
  {
    var h := ThrAt(s, t);
    var s1 := MaybeJob(Put(s, Thr(t), h.(load := Gone)), h.load.mag.Some?, k2, Handed(h.load));
    Put(DropJob(s1, k), Thr(t), h.(load := Gone).(op := Flushing(JobAt(s, k).buf)))
  }

  function Flushed(h: Holder): Holder
    requires h.Ptc? && h.op.Flush?
  {
    Ptc(h.bin, PushPos(Pos(Some(h.op.mag), 0), h.op.buf), |h.op.mag.slots|, h.other, h.otherSize, Ready)
  }

  ghost function Do(s: State, a: ThreadStep): State
    requires CanStep(s, a)
  {
    match a
    case BinTake(t) =>
      var h := ThrAt(s, t);
      Put(s, Thr(t), h.(bin := h.bin[..|h.bin| - 1])).(client := s.client + {h.bin[|h.bin| - 1]})
    case BinPut(t, k) => Put(DropJob(s, k), Thr(t), ThrAt(s, t).(bin := ThrAt(s, t).bin + [JobAt(s, k).buf]))
    case BinFlush(t, k) =>
      var h := ThrAt(s, t);
      PutJob(Put(s, Thr(t), h.(bin := h.bin[..|h.bin| - 1])), k, Freeing(h.bin[|h.bin| - 1]))
    case MagTake(t) => DoMagTake(s, t)
    case MagPut(t, k) =>
      Put(DropJob(s, k), Thr(t), ThrAt(s, t).(load := PushPos(ThrAt(s, t).load, JobAt(s, k).buf)))
    case PtcSwap(t) => Put(s, Thr(t), Swapped(ThrAt(s, t)))
    case RefillStart(t) => Put(s, Thr(t), ThrAt(s, t).(op := Refilling))
    case RefillPop(t, l) => Put(PopOff(s, true, l), Thr(t), ThrAt(s, t).(op := Refill(Top(s, true, l))))
    case RefillReject(t, k) =>
      PutJob(Put(s, Thr(t), ThrAt(s, t).(op := Refilling)), k, Stale(true, ThrAt(s, t).op.mag, 0))
    case RefillInstall(t, k) => DoRefill(s, t, k)
    case RefillGiveUp(t) => Put(s, Thr(t), ThrAt(s, t).(op := Ready))
    case FlushStart(t, k, k2) => DoFlushStart(s, t, k, k2)
    case FlushPop(t, l) =>
      Put(PopOff(s, false, l), Thr(t), ThrAt(s, t).(op := Flush(ThrAt(s, t).op.buf, Top(s, false, l))))
    case FlushReject(t, k) =>
      PutJob(Put(s, Thr(t), ThrAt(s, t).(op := Flushing(ThrAt(s, t).op.buf))), k, Stale(false, ThrAt(s, t).op.mag, 0))
    case FlushPrime(t, id) =>
      Put(s, Thr(t), ThrAt(s, t).(op := Flush(ThrAt(s, t).op.buf, Blank(id, SizeOf(s.magtype)))))
    case FlushInstall(t) => Put(s, Thr(t), Flushed(ThrAt(s, t)))
    case FlushGiveUp(t, k) => PutJob(Put(s, Thr(t), ThrAt(s, t).(op := Ready)), k, Freeing(ThrAt(s, t).op.buf))
    case ExitLoaded(t, k) =>
      var h := ThrAt(s, t);
      PutJob(Put(s, Thr(t), h.(load := Gone)), k, Returning(true, h.load.mag.value, h.load.rounds))
    case ExitOther(t, k) =>
      var h := ThrAt(s, t);
      PutJob(Put(s, Thr(t), h.(other := Gone)), k, Returning(true, h.other.mag.value, h.other.rounds))
  }

  // ---- every step keeps the invariant ----

  lemma ThrIsOk(s: State, t: nat, out: multiset<Addr>)
    requires Upper(s, out) && IsThr(s, t)
    ensures PtcOk(ThrAt(s, t))
  {
    assert GoodAt(s.hold, Thr(t), SizeOf(s.magtype));
  }

  /** The thread changes its own cache, and lets go of `hand` and `sh`. */
  lemma Lets(s: State, t: nat, h: Holder, hand: multiset<Addr>, sh: multiset<nat>, out: multiset<Addr>)
    requires Upper(s, out) && IsThr(s, t) && h.Ptc? && PtcOk(h)
    requires Holds(Thr(t), h) + hand == Holds(Thr(t), ThrAt(s, t)) && Shells(h) + sh == Shells(ThrAt(s, t))
    ensures Above(Put(s, Thr(t), h), hand, sh, out)
  {
    Edit(s, Thr(t), h, multiset{}, multiset{}, hand, sh, out);
  }

  /** The thread takes in what is in hand. */
  lemma Gets(s: State, t: nat, h: Holder, hand: multiset<Addr>, sh: multiset<nat>, out: multiset<Addr>)
    requires Above(s, hand, sh, out) && IsThr(s, t) && h.Ptc? && PtcOk(h)
    requires Holds(Thr(t), h) == Holds(Thr(t), ThrAt(s, t)) + hand && Shells(h) == Shells(ThrAt(s, t)) + sh
    ensures Upper(Put(s, Thr(t), h), out)
  {
    Edit(s, Thr(t), h, hand, sh, multiset{}, multiset{}, out);
  }

  lemma BinTop(h: Holder, t: nat)
    requires h.Ptc? && h.bin != []
    ensures Holds(Thr(t), h.(bin := h.bin[..|h.bin| - 1])) + multiset{h.bin[|h.bin| - 1]} == Holds(Thr(t), h)
    ensures Shells(h.(bin := h.bin[..|h.bin| - 1])) == Shells(h)
  {
    assert h.bin == h.bin[..|h.bin| - 1] + [h.bin[|h.bin| - 1]];
  }

  lemma BinTakeKeeps(s: State, t: nat, out: multiset<Addr>)
    requires Upper(s, out) && CanStep(s, BinTake(t))
    ensures Upper(Do(s, BinTake(t)), out) && ThrAt(s, t).bin[|ThrAt(s, t).bin| - 1] !in s.client
  {
    var h := ThrAt(s, t);
    var b, h' := h.bin[|h.bin| - 1], h.(bin := h.bin[..|h.bin| - 1]);
    ThrIsOk(s, t, out);
    BinTop(h, t);
    Lets(s, t, h', multiset{b}, multiset{}, out);
    ToClient(Put(s, Thr(t), h'), b, out);
  }

  lemma BinFlushKeeps(s: State, t: nat, k: nat, out: multiset<Addr>)
    requires Upper(s, out) && CanStep(s, BinFlush(t, k))
    ensures Upper(Do(s, BinFlush(t, k)), out)
  {
    var h := ThrAt(s, t);
    var b, h' := h.bin[|h.bin| - 1], h.(bin := h.bin[..|h.bin| - 1]);
    ThrIsOk(s, t, out);
    BinTop(h, t);
    Lets(s, t, h', multiset{b}, multiset{}, out);
    StartJob(Put(s, Thr(t), h'), k, Freeing(b), out);
  }

  lemma BinPutKeeps(s: State, t: nat, k: nat, out: multiset<Addr>)
    requires Upper(s, out) && CanStep(s, BinPut(t, k))
    ensures Upper(Do(s, BinPut(t, k)), out)
  {
    var h, b := ThrAt(s, t), JobAt(s, k).buf;
    ThrIsOk(s, t, out);
    EndJob(s, k, out);
    assert multiset(h.bin + [b]) == multiset(h.bin) + multiset{b};
    assert Holds(Thr(t), h.(bin := h.bin + [b])) == Holds(Thr(t), h) + multiset{b};
    Gets(DropJob(s, k), t, h.(bin := h.bin + [b]), multiset{b}, multiset{}, out);
  }

  lemma LoadShare(h: Holder, p: Pos, b: Addr, t: nat)
    requires h.Ptc? && PosShell(p) == PosShell(h.load)
    ensures PosLive(h.load) == PosLive(p) + multiset{b} ==>
              Holds(Thr(t), h) == Holds(Thr(t), h.(load := p)) + multiset{b}
    ensures Shells(h.(load := p)) == Shells(h)
  {
  }

  lemma MagTakeKeeps(s: State, t: nat, out: multiset<Addr>)
    requires Upper(s, out) && CanStep(s, MagTake(t))
    ensures Upper(DoMagTake(s, t), out)
    ensures ThrAt(s, t).load.mag.Some? && PopPos(ThrAt(s, t).load).1 !in s.client
  {
    var h := ThrAt(s, t);
    ThrIsOk(s, t, out);
    PopPosLive(h.load, h.loadSize);
    var (p, b) := PopPos(h.load);
    LoadShare(h, p, b, t);
    Lets(s, t, h.(load := p), multiset{b}, multiset{}, out);
    ToClient(Put(s, Thr(t), h.(load := p)), b, out);
  }

  lemma MagPutKeeps(s: State, t: nat, k: nat, out: multiset<Addr>)
    requires Upper(s, out) && CanStep(s, MagPut(t, k))
    ensures Upper(Do(s, MagPut(t, k)), out)
  {
    var h, b := ThrAt(s, t), JobAt(s, k).buf;
    ThrIsOk(s, t, out);
    PushPosLive(h.load, b, h.loadSize);
    var h' := h.(load := PushPos(h.load, b));
    LoadShare(h', h.load, b, t);
    EndJob(s, k, out);
    Gets(DropJob(s, k), t, h', multiset{b}, multiset{}, out);
  }

  lemma PtcSwapKeeps(s: State, t: nat, out: multiset<Addr>)
    requires Upper(s, out) && CanStep(s, PtcSwap(t))
    ensures Upper(Do(s, PtcSwap(t)), out)
  {
    var h := ThrAt(s, t);
    ThrIsOk(s, t, out);
    assert Holds(Thr(t), Swapped(h)) == Holds(Thr(t), h) && Shells(Swapped(h)) == Shells(h);
    Lets(s, t, Swapped(h), multiset{}, multiset{}, out);
  }

  /** Only the operation changes, and it holds the same. */
  lemma OpShare(h: Holder, op: PtcOp, t: nat)
    requires h.Ptc?
    ensures forall hand :: OpLive(h.op) == OpLive(op) + hand ==> Holds(Thr(t), h) == Holds(Thr(t), h.(op := op)) + hand
    ensures forall sh :: OpShell(h.op) == OpShell(op) + sh ==> Shells(h) == Shells(h.(op := op)) + sh
  {
  }

  lemma OpKeeps(s: State, t: nat, op: PtcOp, hand: multiset<Addr>, sh: multiset<nat>, out: multiset<Addr>)
    requires IsThr(s, t) && ThrAt(s, t).Ptc? && PtcOk(ThrAt(s, t).(op := op)) && Upper(s, out)
    requires OpLive(ThrAt(s, t).op) == OpLive(op) + hand && OpShell(ThrAt(s, t).op) == OpShell(op) + sh
    ensures Above(Put(s, Thr(t), ThrAt(s, t).(op := op)), hand, sh, out)
  {
    OpShare(ThrAt(s, t), op, t);
    Lets(s, t, ThrAt(s, t).(op := op), hand, sh, out);
  }

  lemma OpGets(s: State, t: nat, op: PtcOp, hand: multiset<Addr>, sh: multiset<nat>, out: multiset<Addr>)
    requires IsThr(s, t) && ThrAt(s, t).Ptc? && PtcOk(ThrAt(s, t).(op := op)) && Above(s, hand, sh, out)
    requires OpLive(op) == OpLive(ThrAt(s, t).op) + hand && OpShell(op) == OpShell(ThrAt(s, t).op) + sh
    ensures Upper(Put(s, Thr(t), ThrAt(s, t).(op := op)), out)
  {
    var h := ThrAt(s, t);
    OpShare(h.(op := op), h.op, t);
    assert h.(op := op).(op := h.op) == h;
    Gets(s, t, h.(op := op), hand, sh, out);
  }

  lemma RefillPopKeeps(s: State, t: nat, l: nat, out: multiset<Addr>)
    requires Upper(s, out) && CanStep(s, RefillPop(t, l))
    ensures Upper(Do(s, RefillPop(t, l)), out)
  {
    var m := Top(s, true, l);
    ThrIsOk(s, t, out);
    PopList(s, true, l, out);
    OpGets(PopOff(s, true, l), t, Refill(m), multiset(m.slots), multiset{m.id}, out);
  }

  lemma RefillRejectKeeps(s: State, t: nat, k: nat, out: multiset<Addr>)
    requires Upper(s, out) && CanStep(s, RefillReject(t, k))
    ensures Upper(Do(s, RefillReject(t, k)), out)
  {
    var m := ThrAt(s, t).op.mag;
    ThrIsOk(s, t, out);
    OpKeeps(s, t, Refilling, multiset(m.slots), multiset{m.id}, out);
    StartStale(Put(s, Thr(t), ThrAt(s, t).(op := Refilling)), k, true, m, out);
  }

  lemma RefilledHolds(h: Holder, t: nat)
    requires h.Ptc? && PtcOk(h) && h.op.Refill?
    ensures PtcOk(Refilled(h))
    ensures
      var p := if h.load.mag.Some? then h.other else Gone;
      && Holds(Thr(t), Refilled(h)) + PosLive(p) == Holds(Thr(t), h)
      && Shells(Refilled(h)) + PosShell(p) == Shells(h)
  {
    WholeLive(h.op.mag);
  }

  lemma RefillKeeps(s: State, t: nat, k: nat, out: multiset<Addr>)
    requires Upper(s, out) && CanStep(s, RefillInstall(t, k))
    ensures Upper(DoRefill(s, t, k), out)
  {
    var h := ThrAt(s, t);
    ThrIsOk(s, t, out);
    RefilledHolds(h, t);
    var p := if h.load.mag.Some? then h.other else Gone;
    Lets(s, t, Refilled(h), PosLive(p), PosShell(p), out);
    if p.mag.Some? {
      StartJob(Put(s, Thr(t), Refilled(h)), k, Returning(false, p.mag.value, p.rounds), out);
    }
  }

  lemma LoadGone(h: Holder, t: nat)
    requires h.Ptc?
    ensures Holds(Thr(t), h.(load := Gone)) + PosLive(h.load) == Holds(Thr(t), h)
    ensures Shells(h.(load := Gone)) + PosShell(h.load) == Shells(h)
  {
  }

  lemma OtherGone(h: Holder, t: nat)
    requires h.Ptc?
    ensures Holds(Thr(t), h.(other := Gone)) + PosLive(h.other) == Holds(Thr(t), h)
    ensures Shells(h.(other := Gone)) + PosShell(h.other) == Shells(h)
  {
  }

  lemma ExitLoadedKeeps(s: State, t: nat, k: nat, out: multiset<Addr>)
    requires Upper(s, out) && CanStep(s, ExitLoaded(t, k))
    ensures Upper(Do(s, ExitLoaded(t, k)), out)
  {
    var h := ThrAt(s, t);
    ThrIsOk(s, t, out);
    LoadGone(h, t);
    Lets(s, t, h.(load := Gone), PosLive(h.load), PosShell(h.load), out);
    StartJob(Put(s, Thr(t), h.(load := Gone)), k, Returning(true, h.load.mag.value, h.load.rounds), out);
  }

  lemma ExitOtherKeeps(s: State, t: nat, k: nat, out: multiset<Addr>)
    requires Upper(s, out) && CanStep(s, ExitOther(t, k))
    ensures Upper(Do(s, ExitOther(t, k)), out)
  {
    var h := ThrAt(s, t);
    ThrIsOk(s, t, out);
    OtherGone(h, t);
    Lets(s, t, h.(other := Gone), PosLive(h.other), PosShell(h.other), out);
    StartJob(Put(s, Thr(t), h.(other := Gone)), k, Returning(true, h.other.mag.value, h.other.rounds), out);
  }

  /** A loaded magazine given up, when there is one. */
  lemma GiveUpLoaded(s: State, t: nat, k2: nat, out: multiset<Addr>)
    requires Upper(s, out) && AtRest(s, t) && Unused(s, k2)
    ensures
      var h := ThrAt(s, t);
      Upper(MaybeJob(Put(s, Thr(t), h.(load := Gone)), h.load.mag.Some?, k2, Handed(h.load)), out)
  {
    var h := ThrAt(s, t);
    if h.load.mag.Some? {
      ExitLoadedKeeps(s, t, k2, out);
    } else {
      ThrIsOk(s, t, out);
      LoadGone(h, t);
      Lets(s, t, h.(load := Gone), multiset{}, multiset{}, out);
    }
  }

  lemma FlushStartKeeps(s: State, t: nat, k: nat, k2: nat, out: multiset<Addr>)
    requires Upper(s, out) && CanStep(s, FlushStart(t, k, k2))
    ensures Upper(DoFlushStart(s, t, k, k2), out)
  {
    var h, b := ThrAt(s, t), JobAt(s, k).buf;
    GiveUpLoaded(s, t, k2, out);
    var s1 := MaybeJob(Put(s, Thr(t), h.(load := Gone)), h.load.mag.Some?, k2, Handed(h.load));
    FlushTakes(s1, t, k, out);
  }

  /** The buffer joins the thread's operation. */
  lemma FlushTakes(s: State, t: nat, k: nat, out: multiset<Addr>)
    requires Upper(s, out) && AtRest(s, t) && IsJob(s, k) && JobAt(s, k).Freeing? && ThrAt(s, t).load.mag.None?
    ensures Upper(Put(DropJob(s, k), Thr(t), ThrAt(s, t).(op := Flushing(JobAt(s, k).buf))), out)
  {
    ThrIsOk(s, t, out);
    EndJob(s, k, out);
    OpGets(DropJob(s, k), t, Flushing(JobAt(s, k).buf), multiset{JobAt(s, k).buf}, multiset{}, out);
  }

  lemma FlushPopKeeps(s: State, t: nat, l: nat, out: multiset<Addr>)
    requires Upper(s, out) && CanStep(s, FlushPop(t, l))
    ensures Upper(Do(s, FlushPop(t, l)), out)
  {
    var m := Top(s, false, l);
    ThrIsOk(s, t, out);
    PopList(s, false, l, out);
    OpGets(PopOff(s, false, l), t, Flush(ThrAt(s, t).op.buf, m), multiset{}, multiset{m.id}, out);
  }

  lemma FlushRejectKeeps(s: State, t: nat, k: nat, out: multiset<Addr>)
    requires Upper(s, out) && CanStep(s, FlushReject(t, k))
    ensures Upper(Do(s, FlushReject(t, k)), out)
  {
    var m, b := ThrAt(s, t).op.mag, ThrAt(s, t).op.buf;
    ThrIsOk(s, t, out);
    OpKeeps(s, t, Flushing(b), multiset{}, multiset{m.id}, out);
    StartStale(Put(s, Thr(t), ThrAt(s, t).(op := Flushing(b))), k, false, m, out);
  }

  lemma FlushPrimeKeeps(s: State, t: nat, id: nat, out: multiset<Addr>)
    requires Upper(s, out) && CanStep(s, FlushPrime(t, id))
    ensures Upper(Do(s, FlushPrime(t, id)), out)
  {
    var m := Blank(id, SizeOf(s.magtype));
    ThrIsOk(s, t, out);
    NewShell(s, id, out);
    OpGets(s, t, Flush(ThrAt(s, t).op.buf, m), multiset{}, multiset{id}, out);
  }

  /** The primed magazine takes the buffer; nothing was loaded when the depot was asked. */
  lemma FlushedHolds(h: Holder, t: nat)
    requires h.Ptc? && PtcOk(h) && h.op.Flush? && h.load.mag.None?
    ensures PtcOk(Flushed(h)) && Holds(Thr(t), Flushed(h)) == Holds(Thr(t), h) && Shells(Flushed(h)) == Shells(h)
  {
    WholeLive(h.op.mag);
    PushPosLive(Pos(Some(h.op.mag), 0), h.op.buf, |h.op.mag.slots|);
  }

  lemma FlushGiveUpKeeps(s: State, t: nat, k: nat, out: multiset<Addr>)
    requires Upper(s, out) && CanStep(s, FlushGiveUp(t, k))
    ensures Upper(Do(s, FlushGiveUp(t, k)), out)
  {
    var b := ThrAt(s, t).op.buf;
    ThrIsOk(s, t, out);
    OpKeeps(s, t, Ready, multiset{b}, multiset{}, out);
    StartJob(Put(s, Thr(t), ThrAt(s, t).(op := Ready)), k, Freeing(b), out);
  }

  lemma FlushInstallKeeps(s: State, t: nat, out: multiset<Addr>)
    requires Upper(s, out) && CanStep(s, FlushInstall(t))
    ensures Upper(Do(s, FlushInstall(t)), out)
  {
    ThrIsOk(s, t, out);
    FlushedHolds(ThrAt(s, t), t);
    Lets(s, t, Flushed(ThrAt(s, t)), multiset{}, multiset{}, out);
  }

  lemma StepKeeps(s: State, a: ThreadStep, out: multiset<Addr>)
    requires Upper(s, out) && CanStep(s, a)
    ensures Upper(Do(s, a), out)
  {
    match a
    case BinTake(t) => BinTakeKeeps(s, t, out);
    case BinPut(t, k) => BinPutKeeps(s, t, k, out);
    case BinFlush(t, k) => BinFlushKeeps(s, t, k, out);
    case MagTake(t) => MagTakeKeeps(s, t, out);
    case MagPut(t, k) => MagPutKeeps(s, t, k, out);
    case PtcSwap(t) => PtcSwapKeeps(s, t, out);
    case RefillStart(t) => ThrIsOk(s, t, out); OpKeeps(s, t, Refilling, multiset{}, multiset{}, out);
    case RefillPop(t, l) => RefillPopKeeps(s, t, l, out);
    case RefillReject(t, k) => RefillRejectKeeps(s, t, k, out);
    case RefillInstall(t, k) => RefillKeeps(s, t, k, out);
    case RefillGiveUp(t) => ThrIsOk(s, t, out); OpKeeps(s, t, Ready, multiset{}, multiset{}, out);
    case FlushStart(t, k, k2) => FlushStartKeeps(s, t, k, k2, out);
    case FlushPop(t, l) => FlushPopKeeps(s, t, l, out);
    case FlushReject(t, k) => FlushRejectKeeps(s, t, k, out);
    case FlushPrime(t, id) => FlushPrimeKeeps(s, t, id, out);
    case FlushInstall(t) => FlushInstallKeeps(s, t, out);
    case FlushGiveUp(t, k) => FlushGiveUpKeeps(s, t, k, out);
    case ExitLoaded(t, k) => ExitLoadedKeeps(s, t, k, out);
    case ExitOther(t, k) => ExitOtherKeeps(s, t, k, out);
  }

  lemma SlabSame(s: State, a: ThreadStep)
    requires CanStep(s, a)
    ensures Do(s, a).slab == s.slab && (a.BinTake? || a.MagTake? || Do(s, a).client == s.client)
  {
  }
}
