/** The registry of bootstrap allocations, behind three filters. */
module BootstrapRegistry {
  import opened Collections

  // A table of the pointers handed out before umem is ready.  The filters (a live count, the
  // pointer's shape, an open-addressed set of pages) must never hide a registered pointer.

  const PTRS: nat := 256                   // MAX_BOOTSTRAP_PTRS
  const SLOTS: nat := 1024                 // BOOTSTRAP_SET_SLOTS
  const HEADER: nat := 16                  // sizeof (bootstrap_header_t)
  const PAGE: nat := 4096
  const U32: nat := 0x1_0000_0000
  const U64: nat := 0x1_0000_0000_0000_0000
  const GOLDEN: nat := 0x9E3779B97F4A7C15

  /** A table entry; ptr 0 is an empty one. */
  datatype Ent = Ent(ptr: nat, size: nat)

  /** `down` counts the frees that have cleared their entry and not yet lowered the live count. */
  datatype State = State(ents: seq<Ent>, pages: seq<nat>, live: nat, down: nat)

  // ---- the page set ----

  function Hash(page: nat): (i: nat)
    ensures i < SLOTS
  {
    page * GOLDEN % U64 / U32 % SLOTS
  }

  function Next(i: nat): (k: nat)
    ensures k < SLOTS
  {
    (i + 1) % SLOTS
  }

  /** bootstrap_set_may_contain's loop with `n` probes left; running out answers yes. */
  predicate Probe(pages: seq<nat>, i: nat, page: nat, n: nat)
    requires |pages| == SLOTS && i < SLOTS
    decreases n
  {
    if n == 0 then true
    else if pages[i] == 0 then false
    else pages[i] == page + 1 || Probe(pages, Next(i), page, n - 1)
  }

  predicate MayContain(pages: seq<nat>, p: nat)
    requires |pages| == SLOTS
  {
    Probe(pages, Hash(p / PAGE), p / PAGE, SLOTS)
  }

  /** bootstrap_set_add's loop. */
  function AddFrom(pages: seq<nat>, i: nat, page: nat, n: nat): (r: seq<nat>)
    requires |pages| == SLOTS && i < SLOTS
    ensures |r| == SLOTS
    decreases n
  {
    if n == 0 || pages[i] == page + 1 then pages
    else if pages[i] == 0 then pages[i := page + 1]
    else AddFrom(pages, Next(i), page, n - 1)
  }

  function SetAdd(pages: seq<nat>, p: nat): (r: seq<nat>)
    requires |pages| == SLOTS
    ensures |r| == SLOTS
  {
    AddFrom(pages, Hash(p / PAGE), p / PAGE, SLOTS)
  }

  /** Slots only ever go from empty to a page. */
  ghost predicate Grows(a: seq<nat>, b: seq<nat>) {
    |a| == |b| == SLOTS && forall i :: 0 <= i < SLOTS && a[i] != 0 ==> b[i] == a[i]
  }

  lemma {:induction false} ProbeGrows(a: seq<nat>, b: seq<nat>, i: nat, page: nat, n: nat)
    requires Grows(a, b) && i < SLOTS && Probe(a, i, page, n)
    ensures Probe(b, i, page, n)
    decreases n
  {
    if n > 0 && a[i] != page + 1 { ProbeGrows(a, b, Next(i), page, n - 1); }
  }

  /** Adding never makes a hole, and the page added is found, even in a set with no room for it. */
  lemma {:induction false} AddFinds(pages: seq<nat>, i: nat, page: nat, n: nat)
    requires |pages| == SLOTS && i < SLOTS
    ensures Grows(pages, AddFrom(pages, i, page, n)) && Probe(AddFrom(pages, i, page, n), i, page, n)
    decreases n
  {
    if n > 0 && pages[i] != 0 && pages[i] != page + 1 {
      AddFinds(pages, Next(i), page, n - 1);
    }
  }

  /** A reader without the lock: each slot it reads may come from a later set than the one before. */
  ghost predicate ReaderProbe(sets: seq<seq<nat>>, i: nat, page: nat)
    requires (forall k :: 0 <= k < |sets| ==> |sets[k]| == SLOTS) && i < SLOTS
    decreases |sets|
  {
    if sets == [] then true
    else if sets[0][i] == 0 then false
    else sets[0][i] == page + 1 || ReaderProbe(sets[1..], Next(i), page)
  }

  /** A page in the set when the reader starts is found, whatever is added while it probes. */
  lemma {:induction false} ReaderFinds(start: seq<nat>, sets: seq<seq<nat>>, i: nat, page: nat)
    requires |start| == SLOTS && i < SLOTS && Probe(start, i, page, |sets|)
    requires forall k :: 0 <= k < |sets| ==> |sets[k]| == SLOTS && Grows(start, sets[k])
    ensures ReaderProbe(sets, i, page)
    decreases |sets|
  {
    if sets != [] && start[i] != page + 1 {
      assert Grows(start, sets[0]);
      ReaderFinds(start, sets[1..], Next(i), page);
    }
  }

  // ---- the table ----

  /** First entry from `i` on with pointer `p`; the table's length if there is none. */
  function FindFrom(ents: seq<Ent>, p: nat, i: nat): (k: nat)
    requires i <= |ents|
    ensures i <= k <= |ents| && (k < |ents| ==> ents[k].ptr == p)
    ensures forall j :: i <= j < k ==> ents[j].ptr != p
    decreases |ents| - i
  {
    if i == |ents| || ents[i].ptr == p then i else FindFrom(ents, p, i + 1)
  }

  function Find(ents: seq<Ent>, p: nat): (k: nat)
    ensures k <= |ents| && (k < |ents| ==> ents[k].ptr == p)
    ensures forall j :: 0 <= j < k ==> ents[j].ptr != p
  {
    FindFrom(ents, p, 0)
  }

  ghost predicate Registered(s: State, p: nat) {
    p != 0 && exists i :: 0 <= i < |s.ents| && s.ents[i].ptr == p
  }

  function Count(ents: seq<Ent>): nat {
    if ents == [] then 0 else (if ents[0].ptr != 0 then 1 else 0) + Count(ents[1..])
  }

  ghost predicate EntOk(s: State, i: nat)
    requires i < |s.ents| && |s.pages| == SLOTS
  {
    s.ents[i].ptr != 0 ==>
      && s.ents[i].ptr % PAGE == HEADER && s.ents[i].size > 0
      && MayContain(s.pages, s.ents[i].ptr)
  }

  /** Every registered pointer passes all three filters, and is registered once. */
  ghost predicate Inv(s: State) {
    && |s.ents| == PTRS && |s.pages| == SLOTS
    && s.live == Count(s.ents) + s.down
    && (forall i :: 0 <= i < PTRS ==> EntOk(s, i))
    && (forall i, j :: 0 <= i < j < PTRS && s.ents[i].ptr != 0 ==> s.ents[i].ptr != s.ents[j].ptr)
  }

  lemma {:induction false} CountUpdate(ents: seq<Ent>, i: nat, e: Ent)
    requires i < |ents|
    ensures Count(ents[i := e]) == Count(ents) - (if ents[i].ptr != 0 then 1 else 0) + (if e.ptr != 0 then 1 else 0)
  {
    if i == 0 {
      assert ents[0 := e][1..] == ents[1..];
    } else {
      assert ents[i := e][1..] == ents[1..][i - 1 := e];
      CountUpdate(ents[1..], i - 1, e);
    }
  }

  lemma {:induction false} CountHas(ents: seq<Ent>, i: nat)
    requires i < |ents| && ents[i].ptr != 0
    ensures Count(ents) > 0
  {
    if i > 0 { CountHas(ents[1..], i - 1); }
  }

  // ---- operations ----

  /** bootstrap_register; false when the table is full. */
  function Register(s: State, p: nat, size: nat): (State, bool)
    requires |s.pages| == SLOTS
  {
    var i := Find(s.ents, 0);
    if i == |s.ents| then (s, false)
    else (s.(ents := s.ents[i := Ent(p, size)], pages := SetAdd(s.pages, p), live := s.live + 1), true)
  }

  /** bootstrap_unregister: the size recorded, 0 when `p` is not in the table. */
  function Unregister(s: State, p: nat): (State, nat) {
    var i := Find(s.ents, p);
    if p == 0 || i == |s.ents| then (s, 0)
    else (s.(ents := s.ents[i := Ent(0, 0)], down := s.down + 1), s.ents[i].size)
  }

  /** The end of bootstrap_free: the mapping is gone, the live count goes down. */
  function CountDown(s: State): State
    requires s.live > 0 && s.down > 0
  {
    s.(live := s.live - 1, down := s.down - 1)
  }

  /** bootstrap_pointer_p: gate, shape, set, then the scan under the lock. */
  predicate PointerP(s: State, p: nat)
    requires |s.pages| == SLOTS
  {
    s.live != 0 && p % PAGE == HEADER && MayContain(s.pages, p) && Find(s.ents, p) < |s.ents|
  }

  /** The filters hide nothing: the answer is yes exactly for the pointers in the registry. */
  lemma PointerExact(s: State, p: nat)
    requires Inv(s)
    ensures PointerP(s, p) <==> Registered(s, p)
  {
    var i := Find(s.ents, p);
    if Registered(s, p) {
      assert i < |s.ents| && EntOk(s, i);
      CountHas(s.ents, i);
    }
  }

  /** A mapping is page-aligned, not NULL, and not one already handed out. */
  lemma RegisterKeeps(s: State, p: nat, size: nat)
    requires Inv(s) && p % PAGE == HEADER && size > 0 && !Registered(s, p)
    ensures Inv(Register(s, p, size).0)
    ensures Register(s, p, size).1 <==> Count(s.ents) < PTRS
    ensures forall q :: Registered(Register(s, p, size).0, q)
              <==> Registered(s, q) || (Register(s, p, size).1 && q == p)
  {
    var i := Find(s.ents, 0);
    if i < PTRS {
      var s' := Register(s, p, size).0;
      CountUpdate(s.ents, i, Ent(p, size));
      CountAll(s'.ents);
      AddFinds(s.pages, Hash(p / PAGE), p / PAGE, SLOTS);
      forall j | 0 <= j < PTRS ensures EntOk(s', j) {
        assert EntOk(s, j);
        if j != i && s.ents[j].ptr != 0 {
          ProbeGrows(s.pages, s'.pages, Hash(s.ents[j].ptr / PAGE), s.ents[j].ptr / PAGE, SLOTS);
        }
      }
      forall q ensures Registered(s', q) <==> Registered(s, q) || q == p {
        if Registered(s, q) {
          var j :| 0 <= j < PTRS && s.ents[j].ptr == q;
          assert s'.ents[j].ptr == q;
        }
        assert s'.ents[i].ptr == p;
      }
    } else {
      CountFull(s.ents);
    }
  }

  lemma {:induction false} CountAll(ents: seq<Ent>)
    ensures Count(ents) <= |ents|
  {
    if ents != [] { CountAll(ents[1..]); }
  }

  lemma {:induction false} CountFull(ents: seq<Ent>)
    requires forall i :: 0 <= i < |ents| ==> ents[i].ptr != 0
    ensures Count(ents) == |ents|
  {
    if ents != [] { CountFull(ents[1..]); }
  }

  /** Freeing takes out that pointer alone; the size it returns is nonzero exactly when it was registered. */
  lemma UnregisterKeeps(s: State, p: nat)
    requires Inv(s)
    ensures Inv(Unregister(s, p).0)
    ensures Unregister(s, p).1 > 0 <==> Registered(s, p)
    ensures forall q :: Registered(Unregister(s, p).0, q) <==> Registered(s, q) && q != p
  {
    var i := Find(s.ents, p);
    if p != 0 && i < PTRS {
      var s' := Unregister(s, p).0;
      CountUpdate(s.ents, i, Ent(0, 0));
      assert EntOk(s, i);
      forall j | 0 <= j < PTRS ensures EntOk(s', j) { assert EntOk(s, j); }
      forall q ensures Registered(s', q) <==> Registered(s, q) && q != p {
        if Registered(s, q) && q != p {
          var j :| 0 <= j < PTRS && s.ents[j].ptr == q;
          assert s'.ents[j].ptr == q;
        }
        if Registered(s', q) {
          var j :| 0 <= j < PTRS && s'.ents[j].ptr == q;
          assert s.ents[j].ptr == q;
        }
      }
    }
  }

  // ---- every history ----

  datatype Step = Alloc(p: nat, size: nat) | Clear(p: nat) | Down

  ghost predicate Takes(s: State, a: Step, s': State) {
    |s.pages| == SLOTS &&
    match a
    case Alloc(p, size) => p % PAGE == HEADER && size > 0 && !Registered(s, p) && s' == Register(s, p, size).0
    case Clear(p) => s' == Unregister(s, p).0
    case Down => s.down > 0 && s.live > 0 && s' == CountDown(s)
  }

  ghost predicate Init(s: State) {
    && |s.ents| == PTRS && |s.pages| == SLOTS && s.live == s.down == 0
    && (forall i :: 0 <= i < PTRS ==> s.ents[i] == Ent(0, 0))
    && (forall i :: 0 <= i < SLOTS ==> s.pages[i] == 0)
  }

  ghost predicate Run(r: seq<State>, steps: seq<Step>) {
    && |r| == |steps| + 1 && Init(r[0])
    && forall k {:trigger steps[k]} :: 0 <= k < |steps| ==> Takes(r[k], steps[k], r[k + 1])
  }

  lemma {:induction false} CountNone(ents: seq<Ent>)
    requires forall i :: 0 <= i < |ents| ==> ents[i].ptr == 0
    ensures Count(ents) == 0
  {
    if ents != [] { CountNone(ents[1..]); }
  }

  lemma {:induction false} RunKeeps(r: seq<State>, steps: seq<Step>, k: nat)
    requires Run(r, steps) && k < |r|
    ensures Inv(r[k])
  {
    if k == 0 {
      CountNone(r[0].ents);
    } else {
      RunKeeps(r, steps, k - 1);
      var s, a := r[k - 1], steps[k - 1];
      assert Takes(s, a, r[k]);
      match a
      case Alloc(p, size) => RegisterKeeps(s, p, size);
      case Clear(p) => UnregisterKeeps(s, p);
      case Down => forall i | 0 <= i < PTRS ensures EntOk(r[k], i) { assert EntOk(s, i); }
    }
  }

  /** After any history of allocations and frees the test is exact. */
  lemma HistoryExact(r: seq<State>, steps: seq<Step>, k: nat, p: nat)
    requires Run(r, steps) && k < |r|
    ensures |r[k].pages| == SLOTS && (PointerP(r[k], p) <==> Registered(r[k], p))
  {
    RunKeeps(r, steps, k);
    PointerExact(r[k], p);
  }

  // ---- the code ----

  class Registry {
    const ptr: array<nat>
    const size: array<nat>
    const pages: array<nat>
    var live: nat
    var down: nat

    ghost predicate Shape()
      reads this
    {
      ptr.Length == size.Length == PTRS && pages.Length == SLOTS && ptr != size && ptr != pages && size != pages
    }

    ghost function View(): State
      requires Shape()
      reads this, ptr, size, pages
    {
      State(seq(PTRS, i requires 0 <= i < PTRS && Shape() reads this, ptr, size => Ent(ptr[i], size[i])),
            pages[..], live, down)
    }

    constructor ()
      ensures Shape() && fresh(ptr) && fresh(size) && fresh(pages) && Init(View())
    {
      ptr, size, pages := new nat[PTRS](_ => 0), new nat[PTRS](_ => 0), new nat[SLOTS](_ => 0);
      live, down := 0, 0;
    }

    method AddPage(buf: nat)
      requires Shape()
      modifies pages
      ensures pages[..] == SetAdd(old(pages[..]), buf)
    {
      var page := buf / PAGE;
      var i: nat, n: nat := Hash(page), 0;
      while n < SLOTS
        invariant i < SLOTS && n <= SLOTS && pages[..] == old(pages[..])
        invariant AddFrom(pages[..], i, page, SLOTS - n) == SetAdd(old(pages[..]), buf)
      {
        var cur := pages[i];
        if cur == page + 1 { return; }
        if cur == 0 {
          pages[i] := page + 1;
          return;
        }
        i := (i + 1) % SLOTS;
        n := n + 1;
      }
    }

    method SetMayContain(buf: nat) returns (yes: bool)
      requires Shape()
      ensures yes == MayContain(pages[..], buf)
    {
      var page := buf / PAGE;
      var i: nat, n: nat := Hash(page), 0;
      while n < SLOTS
        invariant i < SLOTS && n <= SLOTS
        invariant Probe(pages[..], i, page, SLOTS - n) == MayContain(pages[..], buf)
      {
        var cur := pages[i];
        if cur == 0 { return false; }
        if cur == page + 1 { return true; }
        i := (i + 1) % SLOTS;
        n := n + 1;
      }
      yes := true;
    }

    method Scan(buf: nat) returns (i: nat)
      requires Shape()
      ensures i == Find(View().ents, buf)
    {
      i := 0;
      while i < PTRS
        invariant i <= PTRS && FindFrom(View().ents, buf, i) == Find(View().ents, buf)
      {
        if ptr[i] == buf { return; }
        i := i + 1;
      }
    }

    method RegisterPtr(buf: nat, total: nat) returns (ok: bool)
      requires Shape()
      modifies this`live, ptr, size, pages
      ensures ok == Register(old(View()), buf, total).1 && View() == Register(old(View()), buf, total).0
    {
      var i := Scan(0);
      ok := i < PTRS;
      if ok {
        live := live + 1;
        ptr[i] := buf;
        size[i] := total;
        AddPage(buf);
        assert View().ents == old(View()).ents[i := Ent(buf, total)];
      }
    }

    /** bootstrap_free's table part; the caller unmaps and then counts down. */
    method UnregisterPtr(buf: nat) returns (sz: nat)
      requires Shape() && buf != 0
      modifies this`down, ptr, size
      ensures sz == Unregister(old(View()), buf).1 && View() == Unregister(old(View()), buf).0
    {
      var i := Scan(buf);
      sz := 0;
      if i < PTRS {
        sz := size[i];
        ptr[i] := 0;
        size[i] := 0;
        down := down + 1;
        assert View().ents == old(View()).ents[i := Ent(0, 0)];
      }
    }

    method IsBootstrapPointer(buf: nat) returns (yes: bool)
      requires Shape() && Inv(View())
      ensures yes <==> Registered(View(), buf)
    {
      PointerExact(View(), buf);
      if buf == 0 || live == 0 || buf % PAGE != HEADER { return false; }
      var maybe := SetMayContain(buf);
      if !maybe { return false; }
      var i := Scan(buf);
      yes := i < PTRS;
    }
  }
}
