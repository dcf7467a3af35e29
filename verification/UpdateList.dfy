/**
 * The update-work list: requests for work attached to caches, a worker that drops the update
 * lock while it works, removers that wait for it, and the repair a forked child makes.
 */
module UpdateList {
  import opened Collections

  /** A cache; 0 is umem_null_cache, the root of the list. */
  type Node = nat

  const ROOT: Node := 0

  datatype Flag = Resize | Rescale | Reap | Notify | Active

  const WORK: set<Flag> := {Resize, Rescale, Reap}

  /** The worker's locals while it has the lock dropped: the cache, this round's uflags, notify. */
  datatype Work = Work(cp: Node, round: set<Flag>, notify: bool)

  type Links = map<Node, Option<Node>>

  datatype State = State(
    next: Links,
    prev: Links,
    flags: map<Node, set<Flag>>,
    worker: Option<Work>,
    waiting: map<nat, Node>)     // threads blocked in umem_remove_updates

  // ---- the list ----

  /** Position `i` of the ring: the root, then the queue, then the root again. */
  function At(q: seq<Node>, i: nat): Node
    requires i <= |q| + 1
  {
    if i == 0 || i == |q| + 1 then ROOT else q[i - 1]
  }

  ghost predicate LinkAt(next: Links, prev: Links, q: seq<Node>, i: nat)
    requires i <= |q|
  {
    && At(q, i) in next && next[At(q, i)] == Some(At(q, i + 1))
    && At(q, i + 1) in prev && prev[At(q, i + 1)] == Some(At(q, i))
  }

  ghost predicate Unlinked(next: Links, prev: Links, x: Node) {
    x in next && x in prev && next[x].None? && prev[x].None?
  }

  /** cache_unext and cache_uprev form one circular list through the root: exactly `q`. */
  ghost predicate Ring(next: Links, prev: Links, q: seq<Node>) {
    && next.Keys == prev.Keys
    && NoDup(q) && ROOT !in q
    && (forall i :: 0 <= i <= |q| ==> LinkAt(next, prev, q, i))
    && (forall x :: x in next && x != ROOT && x !in q ==> Unlinked(next, prev, x))
  }

  function AppendNext(next: Links, prev: Links, cp: Node): Links
    requires ROOT in prev && prev[ROOT].Some?
  {
    next[cp := Some(ROOT)][prev[ROOT].value := Some(cp)]
  }

  function AppendPrev(prev: Links, cp: Node): Links
    requires ROOT in prev
  {
    prev[cp := prev[ROOT]][ROOT := Some(cp)]
  }

  lemma AppendRing(next: Links, prev: Links, q: seq<Node>, cp: Node)
    requires Ring(next, prev, q) && cp in next && cp != ROOT && cp !in q
    ensures ROOT in prev && prev[ROOT].Some?
    ensures Ring(AppendNext(next, prev, cp), AppendPrev(prev, cp), q + [cp])
  {
    assert LinkAt(next, prev, q, |q|);
    var next', prev', q' := AppendNext(next, prev, cp), AppendPrev(prev, cp), q + [cp];
    forall i | 0 <= i <= |q'| ensures LinkAt(next', prev', q', i) {
      if i < |q| { assert LinkAt(next, prev, q, i); }
    }
    assert next'.Keys == next.Keys && prev'.Keys == prev.Keys;
  }

  function DetachNext(next: Links, prev: Links, cp: Node): Links
    requires cp in next && cp in prev && prev[cp].Some?
  {
    next[prev[cp].value := next[cp]][cp := None]
  }

  function DetachPrev(next: Links, prev: Links, cp: Node): Links
    requires cp in next && cp in prev && next[cp].Some?
  {
    prev[next[cp].value := prev[cp]][cp := None]
  }

  lemma DetachRing(next: Links, prev: Links, q: seq<Node>, k: nat)
    requires Ring(next, prev, q) && k < |q|
    ensures q[k] in next && q[k] in prev && next[q[k]].Some? && prev[q[k]].Some?
    ensures Ring(DetachNext(next, prev, q[k]), DetachPrev(next, prev, q[k]), RemoveAt(q, k))
    ensures DetachNext(next, prev, q[k]).Keys == next.Keys
  {
    var cp := q[k];
    assert LinkAt(next, prev, q, k) && LinkAt(next, prev, q, k + 1);
    var next', prev', q' := DetachNext(next, prev, cp), DetachPrev(next, prev, cp), RemoveAt(q, k);
    RemoveAtNoDup(q, k);
    forall i | 0 <= i <= |q'| ensures LinkAt(next', prev', q', i) {
      assert LinkAt(next, prev, q, i) && LinkAt(next, prev, q, i + 1);
      assert At(q', i) == (if i <= k then At(q, i) else At(q, i + 1));
      assert At(q', i + 1) == (if i + 1 <= k then At(q, i + 1) else At(q, i + 2));
    }
    assert next'.Keys == next.Keys && prev'.Keys == prev.Keys;
  }

  // ---- the three states ----

  ghost predicate Inactive(s: State, q: seq<Node>, cp: Node)
    requires cp in s.flags
  {
    s.flags[cp] == {} && cp !in q && (s.worker.Some? ==> s.worker.value.cp != cp)
  }

  ghost predicate Requested(s: State, q: seq<Node>, cp: Node)
    requires cp in s.flags
  {
    && s.flags[cp] != {} && s.flags[cp] <= WORK && cp in q
    && (s.worker.Some? ==> s.worker.value.cp != cp)
  }

  /** The round in progress is part of the flags and has some work in it; NOTIFY is not part of it. */
  ghost predicate Working(s: State, q: seq<Node>, cp: Node)
    requires cp in s.flags
  {
    && s.worker.Some? && s.worker.value.cp == cp && cp !in q
    && Active in s.worker.value.round && Notify !in s.worker.value.round
    && s.worker.value.round <= s.flags[cp]
    && s.worker.value.round * WORK != {}
  }

  ghost predicate CacheOk(s: State, q: seq<Node>, cp: Node) {
    cp in s.flags ==> Inactive(s, q, cp) || Requested(s, q, cp) || Working(s, q, cp)
  }

  /** A blocked remover waits for a cache being worked on, and the worker knows it must broadcast. */
  ghost predicate WaiterOk(s: State, t: nat) {
    t in s.waiting ==>
      && s.worker.Some? && s.worker.value.cp == s.waiting[t] && s.waiting[t] in s.flags
      && (Notify in s.flags[s.waiting[t]] || s.worker.value.notify)
  }

  ghost predicate Inv(s: State, q: seq<Node>) {
    && Ring(s.next, s.prev, q)
    && s.next.Keys == s.flags.Keys + {ROOT} && ROOT !in s.flags
    && (s.worker.Some? ==> s.worker.value.cp in s.flags)
    && (forall cp :: CacheOk(s, q, cp))
    && (forall t :: WaiterOk(s, t))
  }

  // ---- umem_add_update_unlocked, umem_add_update ----

  predicate Linked(s: State) {
    ROOT in s.prev && ROOT in s.next && s.prev[ROOT].Some? && s.next[ROOT].Some?
  }

  function AddUnlocked(s: State, cp: Node, fs: set<Flag>): State
    requires cp in s.flags && cp in s.next && Linked(s)
  {
    var fs := fs - {Active};
    if fs == {} then s
    else if Active in s.flags[cp] || s.next[cp].Some? then s.(flags := s.flags[cp := s.flags[cp] + fs])
    else s.(flags := s.flags[cp := fs],
            next := AppendNext(s.next, s.prev, cp), prev := AppendPrev(s.prev, cp))
  }

  /** A caller other than the worker also broadcasts umem_update_cv. */
  function Add(s: State, cp: Node, fs: set<Flag>, inUpdate: bool): State
    requires cp in s.flags && cp in s.next && Linked(s)
  {
    var s1 := AddUnlocked(s, cp, fs);
    if inUpdate then s1 else s1.(waiting := map[])
  }

  // ---- umem_remove_updates ----

  /** One pass of thread `t` under the lock: it blocks while the cache is ACTIVE. */
  function Remove(s: State, t: nat, cp: Node): State
    requires cp in s.flags && cp in s.next && cp in s.prev
    requires s.next[cp].Some? <==> s.prev[cp].Some?
  {
    if Active in s.flags[cp] then s.(flags := s.flags[cp := s.flags[cp] + {Notify}], waiting := s.waiting[t := cp])
    else if s.next[cp].Some? then
      s.(next := DetachNext(s.next, s.prev, cp), prev := DetachPrev(s.next, s.prev, cp), flags := s.flags[cp := {}])
    else s
  }

  // ---- umem_process_updates ----

  /** Take the first cache off the list and start a round on it, then drop the lock. */
  function Begin(s: State): State
    requires Linked(s) && s.next[ROOT].value in s.flags
    requires var cp := s.next[ROOT].value; cp in s.next && cp in s.prev && s.next[cp].Some? && s.prev[cp].Some?
  {
    var cp := s.next[ROOT].value;
    s.(next := DetachNext(s.next, s.prev, cp), prev := DetachPrev(s.next, s.prev, cp),
       flags := s.flags[cp := s.flags[cp] + {Active}],
       worker := Some(Work(cp, s.flags[cp] + {Active}, false)))
  }

  /** Retake the lock: clear what the round did; go round again if more was asked, else finish. */
  function Finish(s: State): State
    requires s.worker.Some? && s.worker.value.cp in s.flags
  {
    var w := s.worker.value;
    var asked := Notify in s.flags[w.cp];
    var notify := w.notify || asked;
    var left := s.flags[w.cp] - w.round - (if asked then {Notify} else {});
    if left != {} then
      s.(flags := s.flags[w.cp := left + {Active}], worker := Some(Work(w.cp, left + {Active}, notify)))
    else
      s.(flags := s.flags[w.cp := {}], worker := None, waiting := if notify then map[] else s.waiting)
  }

  // ---- every step keeps the invariant ----

  lemma LinkedIffQueued(s: State, q: seq<Node>, cp: Node)
    requires Ring(s.next, s.prev, q) && cp in s.next && cp != ROOT
    ensures Linked(s) && cp in s.prev
    ensures s.next[cp].Some? <==> cp in q
    ensures s.prev[cp].Some? <==> cp in q
  {
    assert LinkAt(s.next, s.prev, q, 0) && LinkAt(s.next, s.prev, q, |q|);
    if cp in q {
      var k := IndexOf(q, cp);
      assert LinkAt(s.next, s.prev, q, k) && LinkAt(s.next, s.prev, q, k + 1);
    } else {
      assert Unlinked(s.next, s.prev, cp);
    }
  }

  /** Everything about the caches other than `cp` is as it was. */
  ghost predicate OthersSame(s: State, s': State, q: seq<Node>, q': seq<Node>, cp: Node) {
    && s'.flags.Keys == s.flags.Keys && cp in s.flags
    && (forall x :: x in s.flags && x != cp ==>
          && s'.flags[x] == s.flags[x] && (x in q' <==> x in q)
          && ((s.worker.Some? && s.worker.value.cp == x) <==> (s'.worker.Some? && s'.worker.value.cp == x))
          && (s.worker.Some? && s.worker.value.cp == x ==> s'.worker == s.worker))
  }

  lemma OthersKeep(s: State, s': State, q: seq<Node>, q': seq<Node>, cp: Node)
    requires (forall x :: CacheOk(s, q, x)) && OthersSame(s, s', q, q', cp) && CacheOk(s', q', cp)
    ensures forall x :: CacheOk(s', q', x)
  {
    forall x ensures CacheOk(s', q', x) {
      assert CacheOk(s, q, x);
    }
  }

  /** The queue after a request: the cache joins the tail if it was Inactive. */
  ghost function Queued(s: State, q: seq<Node>, cp: Node, fs: set<Flag>): seq<Node>
    requires cp in s.flags
  {
    if fs - {Active} == {} || Active in s.flags[cp] || cp in q then q else q + [cp]
  }

  lemma AddUnlockedKeeps(s: State, q: seq<Node>, cp: Node, fs: set<Flag>)
    requires Inv(s, q) && cp in s.flags && fs <= WORK + {Active}
    ensures cp in s.next && Linked(s) && Inv(AddUnlocked(s, cp, fs), Queued(s, q, cp, fs))
  {
    assert CacheOk(s, q, cp);
    LinkedIffQueued(s, q, cp);
    var s', q' := AddUnlocked(s, cp, fs), Queued(s, q, cp, fs);
    if s' != s {
      if q' != q { AppendRing(s.next, s.prev, q, cp); }
      assert CacheOk(s', q', cp);
      OthersKeep(s, s', q, q', cp);
      forall t ensures WaiterOk(s', t) { assert WaiterOk(s, t); }
    }
  }

  lemma AddKeeps(s: State, q: seq<Node>, cp: Node, fs: set<Flag>, inUpdate: bool)
    requires Inv(s, q) && cp in s.flags && fs <= WORK + {Active}
    ensures cp in s.next && Linked(s) && Inv(Add(s, cp, fs, inUpdate), Queued(s, q, cp, fs))
  {
    AddUnlockedKeeps(s, q, cp, fs);
    var s1, s', q' := AddUnlocked(s, cp, fs), Add(s, cp, fs, inUpdate), Queued(s, q, cp, fs);
    forall x ensures CacheOk(s', q', x) { assert CacheOk(s1, q', x); }
    forall t ensures WaiterOk(s', t) { assert WaiterOk(s1, t); }
  }

  ghost function Left(s: State, q: seq<Node>, cp: Node): seq<Node>
    requires cp in s.flags
  {
    if Active in s.flags[cp] || cp !in q then q else RemoveAt(q, IndexOf(q, cp))
  }

  lemma RemoveBlocks(s: State, q: seq<Node>, t: nat, cp: Node)
    requires Inv(s, q) && cp in s.flags && t !in s.waiting && Working(s, q, cp)
    ensures var s' := s.(flags := s.flags[cp := s.flags[cp] + {Notify}], waiting := s.waiting[t := cp]);
            Inv(s', q)
  {
    var s' := s.(flags := s.flags[cp := s.flags[cp] + {Notify}], waiting := s.waiting[t := cp]);
    assert Working(s', q, cp);
    OthersKeep(s, s', q, q, cp);
    forall u ensures WaiterOk(s', u) { assert WaiterOk(s, u); }
  }

  /** Unlinking position `k`, with whatever becomes of that cache's own flags and worker. */
  lemma DetachKeeps(s: State, s': State, q: seq<Node>, k: nat)
    requires Inv(s, q) && k < |q| && s'.waiting == s.waiting
    requires q[k] in s.next && q[k] in s.prev && s.next[q[k]].Some? && s.prev[q[k]].Some?
    requires s'.next == DetachNext(s.next, s.prev, q[k]) && s'.prev == DetachPrev(s.next, s.prev, q[k])
    requires q[k] in s.flags && q[k] in s'.flags && s'.flags == s.flags[q[k] := s'.flags[q[k]]]
    requires s'.worker == s.worker || (s.worker.None? && s'.worker.Some? && s'.worker.value.cp == q[k])
    requires CacheOk(s', RemoveAt(q, k), q[k])
    ensures Inv(s', RemoveAt(q, k))
  {
    DetachRing(s.next, s.prev, q, k);
    RemoveAtNoDup(q, k);
    assert CacheOk(s, q, q[k]);
    OthersKeep(s, s', q, RemoveAt(q, k), q[k]);
    forall u ensures WaiterOk(s', u) { assert WaiterOk(s, u); }
  }

  /** A pass of a remover either blocks on a cache being worked on, or leaves the cache Inactive. */
  lemma RemoveKeeps(s: State, q: seq<Node>, t: nat, cp: Node)
    requires Inv(s, q) && cp in s.flags && t !in s.waiting
    ensures cp in s.next && cp in s.prev && (s.next[cp].Some? <==> s.prev[cp].Some?)
    ensures Inv(Remove(s, t, cp), Left(s, q, cp))
    ensures if Working(s, q, cp) then t in Remove(s, t, cp).waiting
            else Inactive(Remove(s, t, cp), Left(s, q, cp), cp)
  {
    assert CacheOk(s, q, cp);
    LinkedIffQueued(s, q, cp);
    if Working(s, q, cp) {
      RemoveBlocks(s, q, t, cp);
    } else if cp in q {
      RemoveAtNoDup(q, IndexOf(q, cp));
      DetachKeeps(s, Remove(s, t, cp), q, IndexOf(q, cp));
    }
  }

  lemma FirstQueued(s: State, q: seq<Node>)
    requires Inv(s, q) && q != []
    ensures Linked(s) && s.next[ROOT] == Some(q[0]) && q[0] in s.flags && q[0] in s.next && q[0] in s.prev
    ensures s.next[q[0]].Some? && s.prev[q[0]].Some? && Requested(s, q, q[0])
  {
    assert LinkAt(s.next, s.prev, q, 0);
    LinkedIffQueued(s, q, q[0]);
    assert CacheOk(s, q, q[0]);
  }

  /** The worker takes the longest-waiting cache, and its round has every flag requested of it. */
  lemma BeginKeeps(s: State, q: seq<Node>)
    requires Inv(s, q) && q != [] && s.worker.None?
    ensures Linked(s) && s.next[ROOT] == Some(q[0]) && q[0] in s.flags && q[0] in s.next && q[0] in s.prev
    ensures s.next[q[0]].Some? && s.prev[q[0]].Some?
    ensures Inv(Begin(s), q[1..]) && Working(Begin(s), q[1..], q[0])
    ensures s.flags[q[0]] <= Begin(s).worker.value.round
  {
    FirstQueued(s, q);
    assert RemoveAt(q, 0) == q[1..];
    RemoveAtNoDup(q, 0);
    assert Working(Begin(s), q[1..], q[0]) by {
      var f :| f in s.flags[q[0]];
      assert f in Begin(s).worker.value.round * WORK;
    }
    DetachKeeps(s, Begin(s), q, 0);
  }

  lemma FinishKeeps(s: State, q: seq<Node>)
    requires Inv(s, q) && s.worker.Some?
    ensures s.worker.value.cp in s.flags && Inv(Finish(s), q)
    ensures var cp := s.worker.value.cp; Working(Finish(s), q, cp) || Inactive(Finish(s), q, cp)
  {
    var w, s' := s.worker.value, Finish(s);
    assert CacheOk(s, q, w.cp);
    FinishFlags(s, q);
    assert CacheOk(s', q, w.cp);
    OthersKeep(s, s', q, q, w.cp);
    forall t ensures WaiterOk(s', t) { assert WaiterOk(s, t); }
  }

  /** What is left of the flags after a round is exactly the work newly requested during it. */
  lemma FinishFlags(s: State, q: seq<Node>)
    requires Inv(s, q) && s.worker.Some?
    ensures
      var w := s.worker.value;
      w.cp in s.flags && var left := (s.flags[w.cp] - w.round) * WORK;
      && Working(s, q, w.cp)
      && (left == {} ==> Finish(s).worker.None? && Finish(s).flags[w.cp] == {})
      && (left != {} ==> Finish(s).worker.Some? && Finish(s).worker.value.cp == w.cp
                         && Finish(s).worker.value.round == left + {Active}
                         && Finish(s).flags[w.cp] == left + {Active})
  {
    var w := s.worker.value;
    assert CacheOk(s, q, w.cp);
    forall f | f in s.flags[w.cp] - w.round - {Notify} ensures f in WORK {
      assert f != Active && f != Notify;
    }
    assert (s.flags[w.cp] - w.round) * WORK == s.flags[w.cp] - w.round - {Notify};
  }

  // ---- every run ----

  datatype Step =
    | Request(cp: Node, fs: set<Flag>, inUpdate: bool)
    | RemoveBy(t: nat, rcp: Node)
    | Wake(t: nat)
    | Start
    | End

  /** One hold of the update lock; the guards after the first in each case hold in every run. */
  ghost predicate Next(s: State, a: Step, s': State) {
    match a
    case Request(cp, fs, inUpdate) =>
      cp in s.flags && fs <= WORK + {Active} && cp in s.next && Linked(s) && s' == Add(s, cp, fs, inUpdate)
    case RemoveBy(t, cp) =>
      && cp in s.flags && t !in s.waiting && cp in s.next && cp in s.prev
      && (s.next[cp].Some? <==> s.prev[cp].Some?) && s' == Remove(s, t, cp)
    case Wake(t) => t in s.waiting && s' == s.(waiting := s.waiting - {t})
    case Start =>
      && s.worker.None? && Linked(s) && s.next[ROOT].value != ROOT
      && (var cp := s.next[ROOT].value;
          cp in s.flags && cp in s.next && cp in s.prev && s.next[cp].Some? && s.prev[cp].Some?)
      && s' == Begin(s)
    case End => s.worker.Some? && s.worker.value.cp in s.flags && s' == Finish(s)
  }

  lemma WakeKeeps(s: State, q: seq<Node>, t: nat)
    requires Inv(s, q)
    ensures Inv(s.(waiting := s.waiting - {t}), q)
  {
    var s' := s.(waiting := s.waiting - {t});
    forall x ensures CacheOk(s', q, x) { assert CacheOk(s, q, x); }
    forall u ensures WaiterOk(s', u) { assert WaiterOk(s, u); }
  }

  lemma NextKeeps(s: State, a: Step, s': State, q: seq<Node>)
    requires Inv(s, q) && Next(s, a, s')
    ensures exists q' :: Inv(s', q')
  {
    match a
    case Request(cp, fs, inUpdate) => AddKeeps(s, q, cp, fs, inUpdate);
    case RemoveBy(t, cp) => RemoveKeeps(s, q, t, cp);
    case Wake(t) => WakeKeeps(s, q, t);
    case Start =>
      assert LinkAt(s.next, s.prev, q, 0);
      BeginKeeps(s, q);
    case End => FinishKeeps(s, q);
  }

  ghost predicate Init(s: State) {
    && s.next.Keys == s.prev.Keys == s.flags.Keys + {ROOT} && ROOT !in s.flags
    && s.next[ROOT] == s.prev[ROOT] == Some(ROOT)
    && (forall cp :: cp in s.flags ==> s.flags[cp] == {} && s.next[cp] == s.prev[cp] == None)
    && s.worker.None? && s.waiting == map[]
  }

  ghost predicate Run(r: seq<State>, steps: seq<Step>) {
    && |r| == |steps| + 1 && Init(r[0])
    && forall i {:trigger steps[i]} :: 0 <= i < |steps| ==> Next(r[i], steps[i], r[i + 1])
  }

  /** At every release of the update lock each cache is Inactive, Work Requested or Active. */
  lemma {:induction false} RunKeeps(r: seq<State>, steps: seq<Step>, k: nat)
    requires Run(r, steps) && k < |r|
    ensures exists q :: Inv(r[k], q)
  {
    if k == 0 {
      assert LinkAt(r[0].next, r[0].prev, [], 0);
      assert forall cp :: CacheOk(r[0], [], cp);
      assert Inv(r[0], []);
    } else {
      RunKeeps(r, steps, k - 1);
      var q :| Inv(r[k - 1], q);
      assert Next(r[k - 1], steps[k - 1], r[k]);
      NextKeeps(r[k - 1], steps[k - 1], r[k], q);
    }
  }

  /** From `i` to `j` the worker stays in one round. */
  ghost predicate SameRound(r: seq<State>, steps: seq<Step>, i: nat, j: nat) {
    Run(r, steps) && i <= j < |r| && r[i].worker.Some? && forall k :: i <= k < j ==> !steps[k].End?
  }

  /** During a round flags are only added to its cache. */
  lemma {:induction false} RoundGoesOn(r: seq<State>, steps: seq<Step>, i: nat, j: nat)
    requires SameRound(r, steps, i, j)
    ensures r[j].worker == r[i].worker
    ensures var cp := r[i].worker.value.cp; cp in r[i].flags && cp in r[j].flags && r[i].flags[cp] <= r[j].flags[cp]
    decreases j
  {
    RunKeeps(r, steps, j);
    if i < j {
      RoundGoesOn(r, steps, i, j - 1);
      RunKeeps(r, steps, j - 1);
      var q :| Inv(r[j - 1], q);
      assert CacheOk(r[j - 1], q, r[i].worker.value.cp);
      assert Next(r[j - 1], steps[j - 1], r[j]);
    }
  }

  /**
   * A flag requested of a cache being worked on is in the cache's next round exactly when the
   * round in progress does not already have it; otherwise the request is absorbed.
   */
  lemma RequestFate(r: seq<State>, steps: seq<Step>, i: nat, j: nat, f: Flag)
    requires SameRound(r, steps, i, j) && i < j < |steps| && steps[j].End?
    requires steps[i].Request? && steps[i].cp == r[i].worker.value.cp && f in steps[i].fs && f in WORK
    ensures (r[j + 1].worker.Some? && r[j + 1].worker.value.cp == steps[i].cp && f in r[j + 1].worker.value.round)
            <==> f !in r[i].worker.value.round
  {
    var cp := steps[i].cp;
    RunKeeps(r, steps, i);
    var p :| Inv(r[i], p);
    assert CacheOk(r[i], p, cp);
    assert Next(r[i], steps[i], r[i + 1]);
    assert f in r[i + 1].flags[cp];
    RoundGoesOn(r, steps, i, j);
    RoundGoesOn(r, steps, i + 1, j);
    RunKeeps(r, steps, j);
    var q :| Inv(r[j], q);
    FinishFlags(r[j], q);
    assert Next(r[j], steps[j], r[j + 1]);
  }

  /** A second reap requested during a reap: the cache goes Inactive with no further round. */
  lemma SecondReapAbsorbed()
    ensures exists r: seq<State>, steps: seq<Step> ::
              && Run(r, steps) && |steps| == 4
              && steps[2] == Request(1, {Reap}, false) && r[2].worker.Some? && r[2].worker.value.cp == 1
              && r[4].worker.None? && 1 in r[4].flags && r[4].flags[1] == {}
  {
    var s0 := State(map[0 := Some(0), 1 := None], map[0 := Some(0), 1 := None], map[1 := {}], None, map[]);
    var fs: set<Flag> := {Reap};
    assert fs - {Active} == fs && Reap in fs;
    var s1 := Add(s0, 1, fs, false);
    var s2 := Begin(s1);
    var s3 := Add(s2, 1, fs, false);
    var s4 := Finish(s3);
    assert s3.flags[1] == {Reap, Active} == s3.worker.value.round;
    var r, steps := [s0, s1, s2, s3, s4], [Request(1, {Reap}, false), Start, Request(1, {Reap}, false), End];
    assert Run(r, steps);
  }

  /** A remover that blocks always has a broadcast coming, in every state of every run. */
  lemma NoLostWakeup(r: seq<State>, steps: seq<Step>, k: nat, t: nat)
    requires Run(r, steps) && k < |r| && t in r[k].waiting
    ensures r[k].worker.Some? && r[k].worker.value.cp == r[k].waiting[t] && r[k].waiting[t] in r[k].flags
    ensures Notify in r[k].flags[r[k].waiting[t]] || r[k].worker.value.notify
    ensures Finish(r[k]).worker.None? ==> Finish(r[k]).waiting == map[]
  {
    RunKeeps(r, steps, k);
    var q :| Inv(r[k], q);
    assert WaiterOk(r[k], t);
    FinishFlags(r[k], q);
  }

  // ---- the child of a fork ----

  /** In the child neither the worker nor any waiting remover exists. */
  function Child(s: State): State { s.(worker := None, waiting := map[]) }

  function RepairOne(s: State, cp: Node): State
    requires cp in s.flags && Linked(s)
  {
    var fs := s.flags[cp] - {Notify};
    if Active in fs then
      s.(flags := s.flags[cp := fs - {Active}],
         next := AppendNext(s.next, s.prev, cp), prev := AppendPrev(s.prev, cp))
    else s.(flags := s.flags[cp := fs])
  }

  ghost predicate Orphan(s: State, q: seq<Node>, cp: Node)
    requires cp in s.flags
  {
    cp !in q && Active in s.flags[cp] && s.flags[cp] * WORK != {}
  }

  ghost predicate Repairable(s: State, q: seq<Node>, todo: seq<Node>, cp: Node) {
    cp in s.flags ==> Inactive(s, q, cp) || Requested(s, q, cp) || (cp in todo && Orphan(s, q, cp))
  }

  ghost predicate Repairing(s: State, q: seq<Node>, todo: seq<Node>) {
    && Ring(s.next, s.prev, q) && s.worker.None? && s.waiting == map[]
    && s.next.Keys == s.flags.Keys + {ROOT} && ROOT !in s.flags
    && NoDup(todo) && (forall cp :: cp in todo ==> cp in s.flags)
    && forall cp :: Repairable(s, q, todo, cp)
  }

  lemma ChildRepairable(s: State, q: seq<Node>, cs: seq<Node>)
    requires Inv(s, q) && NoDup(cs) && forall cp :: cp in cs <==> cp in s.flags
    ensures Repairing(Child(s), q, cs)
  {
    forall cp ensures Repairable(Child(s), q, cs, cp) {
      assert CacheOk(s, q, cp);
      if cp in s.flags && Working(s, q, cp) {
        var f :| f in s.worker.value.round * WORK;
        assert f in s.flags[cp] * WORK;
      }
    }
  }

  ghost function Repaired(s: State, q: seq<Node>, cp: Node): seq<Node>
    requires cp in s.flags
  {
    if Active in s.flags[cp] then q + [cp] else q
  }

  /** One turn of the repair loop: an Active cache becomes a valid Work Requested one. */
  lemma RepairStep(s: State, q: seq<Node>, todo: seq<Node>)
    requires Repairing(s, q, todo) && todo != []
    ensures todo[0] in s.flags && Linked(s)
    ensures Repairing(RepairOne(s, todo[0]), Repaired(s, q, todo[0]), todo[1..])
    ensures Active in s.flags[todo[0]] ==>
              && s.next[todo[0]].None? && s.prev[todo[0]].None?
              && Requested(RepairOne(s, todo[0]), Repaired(s, q, todo[0]), todo[0])
              && RepairOne(s, todo[0]).flags[todo[0]] == s.flags[todo[0]] * WORK
    ensures Active !in s.flags[todo[0]] ==> RepairOne(s, todo[0]) == s
  {
    var cp := todo[0];
    assert Repairable(s, q, todo, cp);
    LinkedIffQueued(s, q, cp);
    var s', q' := RepairOne(s, cp), Repaired(s, q, cp);
    if Active in s.flags[cp] {
      AppendRing(s.next, s.prev, q, cp);
      OnlyWorkLeft(s.flags[cp]);
    } else {
      assert s.flags[cp] - {Notify} == s.flags[cp];
      assert s'.flags == s.flags;
    }
    forall x ensures Repairable(s', q', todo[1..], x) { assert Repairable(s, q, todo, x); }
  }

  lemma OnlyWorkLeft(fs: set<Flag>)
    ensures fs - {Notify} - {Active} == fs * WORK
  {
    forall f | f in fs - {Notify} - {Active} ensures f in WORK {
      assert f != Notify && f != Active;
    }
  }

  predicate Known(s: State, cs: seq<Node>) { Linked(s) && forall cp :: cp in cs ==> cp in s.flags && cp in s.next }

  /** The whole walk over the caches `cs`. */
  function RepairFrom(s: State, cs: seq<Node>): (r: State)
    requires Known(s, cs)
    decreases |cs|
  {
    if cs == [] then s else RepairFrom(RepairOne(s, cs[0]), cs[1..])
  }

  ghost function RepairedFrom(s: State, q: seq<Node>, cs: seq<Node>): seq<Node>
    requires Known(s, cs)
    decreases |cs|
  {
    if cs == [] then q else RepairedFrom(RepairOne(s, cs[0]), Repaired(s, q, cs[0]), cs[1..])
  }

  /** The walk ends with nothing left to repair, keeps what was queued, and touches only its caches. */
  lemma {:induction false} RepairWalk(s: State, q: seq<Node>, cs: seq<Node>)
    requires Known(s, cs) && Repairing(s, q, cs)
    ensures Repairing(RepairFrom(s, cs), RepairedFrom(s, q, cs), [])
    ensures RepairFrom(s, cs).flags.Keys == s.flags.Keys
    ensures forall cp :: cp in q ==> cp in RepairedFrom(s, q, cs)
    ensures forall cp :: cp in cs && Active in s.flags[cp] ==> cp in RepairedFrom(s, q, cs)
    ensures forall cp :: cp in s.flags && cp !in cs ==> RepairFrom(s, cs).flags[cp] == s.flags[cp]
    ensures forall cp :: cp in cs ==> RepairFrom(s, cs).flags[cp] == s.flags[cp] * WORK
    decreases |cs|
  {
    if cs != [] {
      RepairStep(s, q, cs);
      assert Repairable(s, q, cs, cs[0]);
      if Active !in s.flags[cs[0]] { assert s.flags[cs[0]] * WORK == s.flags[cs[0]]; }
      RepairWalk(RepairOne(s, cs[0]), Repaired(s, q, cs[0]), cs[1..]);
    }
  }

  /** Everything an Active cache was asked for and has not finished is asked for again. */
  ghost predicate AllRequested(s0: State, q0: seq<Node>, s: State, q: seq<Node>) {
    && s.flags.Keys == s0.flags.Keys
    && forall cp :: cp in s0.flags ==>
         && s.flags[cp] == s0.flags[cp] * WORK
         && (Requested(s0, q0, cp) || Working(s0, q0, cp) ==> Requested(s, q, cp))
         && (Inactive(s0, q0, cp) ==> Inactive(s, q, cp))
  }

  lemma RepairKeeps(s: State, q: seq<Node>, cs: seq<Node>)
    requires Inv(s, q) && NoDup(cs) && forall cp :: cp in cs <==> cp in s.flags
    ensures Known(Child(s), cs)
    ensures var s', q' := RepairFrom(Child(s), cs), RepairedFrom(Child(s), q, cs);
            Inv(s', q') && s'.worker.None? && s'.waiting == map[] && AllRequested(s, q, s', q')
  {
    ChildRepairable(s, q, cs);
    assert LinkAt(s.next, s.prev, q, 0) && LinkAt(s.next, s.prev, q, |q|);
    RepairWalk(Child(s), q, cs);
    var s', q' := RepairFrom(Child(s), cs), RepairedFrom(Child(s), q, cs);
    forall cp ensures CacheOk(s', q', cp) { assert Repairable(s', q', [], cp); }
    forall cp | cp in s.flags
      ensures Requested(s, q, cp) || Working(s, q, cp) ==> Requested(s', q', cp)
      ensures Inactive(s, q, cp) ==> Inactive(s', q', cp)
    {
      assert Repairable(s', q', [], cp);
    }
  }

  // ---- the code ----

  /** The update state, all of it under umem_update_lock; each method is one hold of the lock. */
  class Updates {
    var next: Links
    var prev: Links
    var flags: map<Node, set<Flag>>
    var worker: Option<Work>
    var waiting: map<nat, Node>
    ghost var queue: seq<Node>

    ghost function View(): State
      reads this
    {
      State(next, prev, flags, worker, waiting)
    }

    ghost predicate Valid()
      reads this
    {
      Inv(View(), queue)
    }

    constructor (caches: set<Node>)
      requires ROOT !in caches
      ensures Valid() && Init(View()) && flags.Keys == caches
    {
      next := (map c | c in caches :: None)[ROOT := Some(ROOT)];
      prev := (map c | c in caches :: None)[ROOT := Some(ROOT)];
      flags := map c | c in caches :: {};
      worker, waiting, queue := None, map[], [];
      new;
      assert LinkAt(next, prev, [], 0);
      assert forall cp :: CacheOk(View(), [], cp);
    }

    /** Link `cp` in front of the root. */
    method Append(cp: Node)
      requires cp in next && ROOT in prev && prev[ROOT].Some?
      modifies this`next, this`prev
      ensures next == AppendNext(old(next), old(prev), cp) && prev == AppendPrev(old(prev), cp)
    {
      var cprev := prev[ROOT].value;
      next := next[cp := Some(ROOT)];
      prev := prev[cp := Some(cprev)];
      prev := prev[ROOT := Some(cp)];
      next := next[cprev := Some(cp)];
    }

    method Detach(cp: Node)
      requires cp in next && cp in prev && next[cp].Some? && prev[cp].Some?
      modifies this`next, this`prev
      ensures next == DetachNext(old(next), old(prev), cp) && prev == DetachPrev(old(next), old(prev), cp)
    {
      next := next[prev[cp].value := next[cp]];
      prev := prev[next[cp].value := prev[cp]];
      prev := prev[cp := None];
      next := next[cp := None];
    }

    method AddUpdate(cp: Node, fs: set<Flag>, inUpdate: bool)
      requires Valid() && cp in flags && fs <= WORK + {Active}
      modifies this
      ensures Valid() && cp in old(next) && Linked(old(View())) && View() == Add(old(View()), cp, fs, inUpdate)
    {
      AddKeeps(View(), queue, cp, fs, inUpdate);
      ghost var q := Queued(View(), queue, cp, fs);
      var asked := fs - {Active};
      if asked != {} {
        if Active in flags[cp] {
          flags := flags[cp := flags[cp] + asked];
        } else if next[cp].Some? {
          flags := flags[cp := flags[cp] + asked];
        } else {
          flags := flags[cp := asked];
          Append(cp);
        }
      }
      if !inUpdate { waiting := map[]; }
      queue := q;
    }

    /** One pass of umem_remove_updates; `done` when the cache is Inactive. */
    method RemoveUpdates(t: nat, cp: Node) returns (done: bool)
      requires Valid() && cp in flags && t !in waiting
      modifies this
      ensures Valid() && cp in flags && done == (t !in waiting) && (done ==> Inactive(View(), queue, cp))
      ensures cp in old(next) && cp in old(prev) && (old(next)[cp].Some? <==> old(prev)[cp].Some?)
      ensures View() == Remove(old(View()), t, cp)
    {
      RemoveKeeps(View(), queue, t, cp);
      ghost var q := Left(View(), queue, cp);
      assert CacheOk(View(), queue, cp);
      done := Active !in flags[cp];
      if !done {
        flags := flags[cp := flags[cp] + {Notify}];
        waiting := waiting[t := cp];
      } else if next[cp].Some? {
        Detach(cp);
        flags := flags[cp := {}];
      }
      queue := q;
    }

    /** The worker takes the first cache; false when the list is empty. */
    method BeginRound() returns (found: bool)
      requires Valid() && worker.None?
      modifies this
      ensures Valid() && found == (old(queue) != []) && (!found ==> View() == old(View()))
      ensures found ==> Next(old(View()), Start, View()) && queue == old(queue)[1..]
    {
      assert LinkAt(next, prev, queue, 0);
      var cp := next[ROOT].value;
      found := cp != ROOT;
      if found {
        BeginKeeps(View(), queue);
        Detach(cp);
        flags := flags[cp := flags[cp] + {Active}];
        worker := Some(Work(cp, flags[cp], false));
        queue := queue[1..];
      }
    }

    method EndRound()
      requires Valid() && worker.Some?
      modifies this
      ensures Valid() && Next(old(View()), End, View()) && queue == old(queue)
    {
      FinishKeeps(View(), queue);
      ghost var s' := Finish(View());
      var cp, round, notify := worker.value.cp, worker.value.round, worker.value.notify;
      if Notify in flags[cp] {
        round, notify := round + {Notify}, true;
      }
      assert flags[cp] - round == flags[cp] - worker.value.round - (if Notify in flags[cp] then {Notify} else {});
      flags := flags[cp := flags[cp] - round];
      if flags[cp] != {} {
        flags := flags[cp := flags[cp] + {Active}];
        worker := Some(Work(cp, flags[cp], notify));
      } else {
        worker := None;
        if notify { waiting := map[]; }
      }
      assert View() == s';
    }

    method RepairCache(cp: Node)
      requires cp in flags && cp in next && Linked(View())
      modifies this`flags, this`next, this`prev
      ensures Linked(old(View())) && View() == RepairOne(old(View()), cp)
    {
      ghost var fs := flags[cp];
      if Notify in flags[cp] { flags := flags[cp := flags[cp] - {Notify}]; }
      assert flags[cp] == fs - {Notify};
      if Active in flags[cp] {
        flags := flags[cp := flags[cp] - {Active}];
        Append(cp);
      }
    }

    method RepairWalk(cs: seq<Node>)
      requires Known(View(), cs)
      modifies this`flags, this`next, this`prev
      ensures Known(old(View()), cs) && View() == RepairFrom(old(View()), cs)
    {
      var i := 0;
      while i < |cs|
        invariant i <= |cs| && Known(View(), cs[i..])
        invariant RepairFrom(View(), cs[i..]) == RepairFrom(old(View()), cs)
      {
        assert cs[i..][0] == cs[i] && cs[i..][1..] == cs[i + 1..];
        RepairCache(cs[i]);
        i := i + 1;
      }
    }

    /** umem_do_release in the child: walk the cache list `cs`. */
    method RepairChild(cs: seq<Node>)
      requires Valid() && NoDup(cs) && forall cp :: cp in cs <==> cp in flags
      modifies this
      ensures Valid() && worker.None? && waiting == map[]
      ensures AllRequested(old(View()), old(queue), View(), queue)
    {
      RepairKeeps(View(), queue, cs);
      worker, waiting, queue := None, map[], RepairedFrom(Child(View()), queue, cs);
      RepairWalk(cs);
    }
  }
}
