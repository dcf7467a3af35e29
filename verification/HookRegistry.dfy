/** Application allocator hooks: registry, draining unregister and walk. */
module HookRegistry {
  import opened Collections

  // One lock guards the registry; it is dropped around every callback, unregister waits for the
  // callbacks to drain, and a walk visits each hook with the lock dropped.

  const MAXREF: nat := 65535               // UINT16_MAX

  type HookId = nat

  /** One activation of the API: a callback that calls back into it has an activation of its own. */
  type Tid = nat

  datatype Hook = Hook(name: string, active: bool, refcnt: nat, gen: nat)

  /**
   * A walk in progress: its generation, the hooks listed ever since it began, the callbacks it
   * has made in order, and the hooks it could not hold.
   */
  datatype Walk = Walk(t: Tid, gen: nat, present: set<HookId>, visited: seq<HookId>, skipped: set<HookId>)

  /**
   * `inside` has the activations between hook_hold and hook_rele, `waiting` those blocked in
   * umem_hook_unregister.  Generations are unbounded.
   */
  datatype State = State(
    hooks: map<HookId, Hook>,
    list: seq<HookId>,
    inside: map<Tid, HookId>,
    waiting: map<Tid, HookId>,
    nextGen: nat,
    walk: Option<Walk>)

  /** Threads inside hook `h`. */
  function Holders(s: State, h: HookId): set<Tid> { set t | t in s.inside && s.inside[t] == h }

  ghost predicate HookOk(s: State, h: HookId) {
    h in s.hooks ==>
      && s.hooks[h].refcnt == |Holders(s, h)| <= MAXREF
      && s.hooks[h].gen < s.nextGen
      && (s.hooks[h].active <==> h in s.list)
  }

  /** Of the hooks present throughout the walk, those visited or skipped are the marked ones, each once. */
  ghost predicate WalkAt(s: State, w: Walk, h: HookId) {
    h in w.present ==>
      && h in s.list && h in s.hooks
      && (s.hooks[h].gen == w.gen <==> h in w.visited || h in w.skipped)
      && !(h in w.visited && h in w.skipped)
      && multiset(w.visited)[h] <= 1
  }

  ghost predicate WaitAt(s: State, t: Tid) {
    t in s.waiting ==> s.waiting[t] in s.hooks && !s.hooks[s.waiting[t]].active
  }

  ghost predicate Inv(s: State) {
    && NoDup(s.list) && (forall h :: h in s.list ==> h in s.hooks)
    && (forall t :: t in s.inside ==> s.inside[t] in s.hooks)
    && (forall h :: HookOk(s, h))
    && (forall t :: WaitAt(s, t))
    && (s.walk.Some? ==> s.walk.value.gen < s.nextGen && forall h :: WalkAt(s, s.walk.value, h))
  }

  // ---- hook_hold, hook_rele ----

  predicate CanHold(s: State, h: HookId) { h in s.hooks && s.hooks[h].active && s.hooks[h].refcnt != MAXREF }

  function Hold(s: State, t: Tid, h: HookId): State
    requires h in s.hooks
  {
    s.(hooks := s.hooks[h := s.hooks[h].(refcnt := s.hooks[h].refcnt + 1)], inside := s.inside[t := h])
  }

  /** hook_rele; the count is 16 bits and would wrap. */
  function Rele(s: State, t: Tid): State
    requires t in s.inside && s.inside[t] in s.hooks
  {
    var h := s.inside[t];
    s.(hooks := s.hooks[h := s.hooks[h].(refcnt := (s.hooks[h].refcnt - 1) % (MAXREF + 1))], inside := s.inside - {t})
  }

  lemma HoldHook(s: State, t: Tid, h: HookId, g: HookId)
    requires HookOk(s, g) && t !in s.inside && CanHold(s, h)
    ensures HookOk(Hold(s, t, h), g)
  {
    assert Holders(Hold(s, t, h), g) == (if g == h then Holders(s, g) + {t} else Holders(s, g));
  }

  lemma HoldKeeps(s: State, t: Tid, h: HookId)
    requires Inv(s) && t !in s.inside && CanHold(s, h)
    ensures Inv(Hold(s, t, h))
  {
    var s' := Hold(s, t, h);
    forall g ensures HookOk(s', g) {
      assert HookOk(s, g);
      HoldHook(s, t, h, g);
    }
    forall u ensures WaitAt(s', u) { assert WaitAt(s, u); }
    WalkSame(s, s');
  }

  lemma ReleKeeps(s: State, t: Tid)
    requires Inv(s) && t in s.inside
    ensures s.inside[t] in s.hooks && s.hooks[s.inside[t]].refcnt > 0 && Inv(Rele(s, t))
  {
    var h := s.inside[t];
    assert HookOk(s, h);
    assert t in Holders(s, h);
    var s' := Rele(s, t);
    forall g ensures HookOk(s', g) {
      assert HookOk(s, g);
      assert Holders(s', g) == (if g == h then Holders(s, g) - {t} else Holders(s, g));
    }
    forall u ensures WaitAt(s', u) { assert WaitAt(s, u); }
    WalkSame(s, s');
  }

  /** A step that moves no hook in or out of the list and marks none leaves the walk as it was. */
  lemma WalkSame(s: State, s': State)
    requires Inv(s) && s'.walk == s.walk && s'.list == s.list
    requires forall h :: h in s.hooks ==> h in s'.hooks && s'.hooks[h].gen == s.hooks[h].gen
    ensures s'.walk.Some? ==> forall h :: WalkAt(s', s'.walk.value, h)
  {
    if s.walk.Some? {
      forall h ensures WalkAt(s', s.walk.value, h) { assert WalkAt(s, s.walk.value, h); }
    }
  }

  // ---- umem_hook_register ----

  predicate NameFree(s: State, h: HookId) {
    h in s.hooks && forall g :: g in s.list && g in s.hooks ==> s.hooks[g].name != s.hooks[h].name
  }

  function Register(s: State, h: HookId): State
    requires h in s.hooks
  {
    s.(hooks := s.hooks[h := s.hooks[h].(active := true, refcnt := 0, gen := 0)], list := [h] + s.list)
  }

  /** A hook no thread is inside, and no unregister is still waiting for. */
  ghost predicate Idle(s: State, h: HookId) {
    Holders(s, h) == {} && forall t :: t in s.waiting ==> s.waiting[t] != h
  }

  lemma RegisterKeeps(s: State, h: HookId)
    requires Inv(s) && NameFree(s, h) && Idle(s, h) && s.nextGen > 0
    ensures Inv(Register(s, h)) && h !in s.list
  {
    var s' := Register(s, h);
    assert h !in s.list;
    forall g ensures HookOk(s', g) {
      assert HookOk(s, g);
      assert Holders(s', g) == Holders(s, g);
    }
    forall u ensures WaitAt(s', u) { assert WaitAt(s, u); }
    if s.walk.Some? {
      forall g ensures WalkAt(s', s.walk.value, g) { assert WalkAt(s, s.walk.value, g); }
    }
  }

  // ---- umem_hook_unregister ----

  function Removed(list: seq<HookId>, h: HookId): seq<HookId> {
    if h in list then RemoveAt(list, IndexOf(list, h)) else list
  }

  /** The first hold of the lock: close the door, unlink, and block if anyone is inside. */
  function Unregister(s: State, t: Tid, h: HookId): State
    requires h in s.hooks
  {
    var s1 :=
      if !s.hooks[h].active then s
      else
        s.(hooks := s.hooks[h := s.hooks[h].(active := false)], list := Removed(s.list, h),
           walk := match s.walk case None => None case Some(w) => Some(w.(present := w.present - {h})));
    if s.hooks[h].refcnt > 0 then s1.(waiting := s1.waiting[t := h]) else s1
  }

  /** Does the call return in this hold of the lock? */
  predicate Returns(s: State, t: Tid, h: HookId) { h in s.hooks && s.hooks[h].refcnt == 0 }

  function Wake(s: State, t: Tid): State { s.(waiting := s.waiting - {t}) }

  lemma RemovedList(list: seq<HookId>, h: HookId)
    requires NoDup(list)
    ensures NoDup(Removed(list, h)) && forall g :: g in Removed(list, h) <==> g in list && g != h
  {
    if h in list { RemoveAtNoDup(list, IndexOf(list, h)); }
  }

  lemma UnregisterKeeps(s: State, t: Tid, h: HookId)
    requires Inv(s) && h in s.hooks && t !in s.waiting
    ensures Inv(Unregister(s, t, h)) && !Unregister(s, t, h).hooks[h].active
  {
    var s' := Unregister(s, t, h);
    assert HookOk(s, h);
    RemovedList(s.list, h);
    forall g ensures HookOk(s', g) {
      assert HookOk(s, g);
      assert Holders(s', g) == Holders(s, g);
    }
    forall u ensures WaitAt(s', u) { assert WaitAt(s, u); }
    if s.walk.Some? {
      forall g ensures WalkAt(s', s'.walk.value, g) { assert WalkAt(s, s.walk.value, g); }
    }
  }

  /** Unregister returns only when no thread is inside the hook and none can enter. */
  lemma ReturnsQuiet(s: State, t: Tid, h: HookId)
    requires Inv(s) && h in s.hooks && Returns(s, t, h)
    requires !s.hooks[h].active || t !in s.waiting
    ensures var s' := if t in s.waiting then Wake(s, t) else Unregister(s, t, h);
            && Holders(s', h) == {} && h in s'.hooks && !CanHold(s', h) && t !in s'.waiting && h !in s'.list
  {
    assert HookOk(s, h);
    var s' := if t in s.waiting then Wake(s, t) else Unregister(s, t, h);
    assert Holders(s', h) == Holders(s, h);
    if t !in s.waiting { UnregisterKeeps(s, t, h); assert HookOk(s', h); }
  }

  // ---- umem_hook_walk ----

  function WalkStart(s: State, t: Tid): State {
    s.(nextGen := s.nextGen + 1, walk := Some(Walk(t, s.nextGen, set h | h in s.list, [], {})))
  }

  predicate Marked(s: State, gen: nat, h: HookId) { h in s.hooks && s.hooks[h].gen == gen }

  /** Position of the first hook not yet marked with the walk's generation. */
  function FirstUnmarked(s: State, gen: nat, i: nat): (k: nat)
    requires i <= |s.list|
    ensures i <= k <= |s.list| && (k < |s.list| ==> !Marked(s, gen, s.list[k]))
    ensures forall j :: i <= j < k ==> Marked(s, gen, s.list[j])
    decreases |s.list| - i
  {
    if i == |s.list| || !Marked(s, gen, s.list[i]) then i else FirstUnmarked(s, gen, i + 1)
  }

  /** One pass under the lock: mark the hook and, if it can be held, drop the lock and call back. */
  function Visit(s: State, h: HookId): State
    requires s.walk.Some? && h in s.hooks
  {
    var w := s.walk.value;
    var s1 := s.(hooks := s.hooks[h := s.hooks[h].(gen := w.gen)]);
    if CanHold(s1, h) then Hold(s1.(walk := Some(w.(visited := w.visited + [h]))), w.t, h)
    else s1.(walk := Some(w.(skipped := w.skipped + {h})))
  }

  lemma WalkStartKeeps(s: State, t: Tid)
    requires Inv(s) && s.walk.None?
    ensures Inv(WalkStart(s, t))
  {
    var s' := WalkStart(s, t);
    forall h ensures HookOk(s', h) {
      assert HookOk(s, h);
      assert Holders(s', h) == Holders(s, h);
    }
    forall u ensures WaitAt(s', u) { assert WaitAt(s, u); }
    forall h ensures WalkAt(s', s'.walk.value, h) { assert HookOk(s, h); }
  }

  /** Marking a hook and recording it, before the hold. */
  lemma MarkKeeps(s: State, h: HookId, w': Walk)
    requires Inv(s) && s.walk.Some? && h in s.hooks && s.hooks[h].gen != s.walk.value.gen
    requires var w := s.walk.value; w' == w.(visited := w.visited + [h]) || w' == w.(skipped := w.skipped + {h})
    ensures Inv(s.(hooks := s.hooks[h := s.hooks[h].(gen := s.walk.value.gen)], walk := Some(w')))
  {
    var w := s.walk.value;
    var s' := s.(hooks := s.hooks[h := s.hooks[h].(gen := w.gen)], walk := Some(w'));
    forall g ensures HookOk(s', g) {
      assert HookOk(s, g);
      assert Holders(s', g) == Holders(s, g);
    }
    forall u ensures WaitAt(s', u) { assert WaitAt(s, u); }
    forall g ensures WalkAt(s', w', g) {
      assert WalkAt(s, w, g);
      assert multiset(w.visited + [h])[g] == multiset(w.visited)[g] + (if g == h then 1 else 0);
    }
  }

  lemma VisitKeeps(s: State, h: HookId)
    requires Inv(s) && s.walk.Some? && s.walk.value.t !in s.inside && h in s.list
    requires h in s.hooks && s.hooks[h].gen != s.walk.value.gen
    ensures Inv(Visit(s, h))
    ensures h in Visit(s, h).walk.value.skipped <==> h in s.walk.value.skipped || s.hooks[h].refcnt == MAXREF
  {
    assert HookOk(s, h);
    var w := s.walk.value;
    if s.hooks[h].refcnt < MAXREF {
      var w' := w.(visited := w.visited + [h]);
      MarkKeeps(s, h, w');
      HoldKeeps(s.(hooks := s.hooks[h := s.hooks[h].(gen := w.gen)], walk := Some(w')), w.t, h);
    } else {
      MarkKeeps(s, h, w.(skipped := w.skipped + {h}));
    }
  }

  /** A walk out of unmarked hooks has called back once for each hook present throughout, but for those it skipped. */
  lemma WalkComplete(s: State, h: HookId)
    requires Inv(s) && s.walk.Some? && FirstUnmarked(s, s.walk.value.gen, 0) == |s.list| && h in s.walk.value.present
    ensures multiset(s.walk.value.visited)[h] == if h in s.walk.value.skipped then 0 else 1
  {
    var w := s.walk.value;
    assert WalkAt(s, w, h);
    var i := IndexOf(s.list, h);
    assert Marked(s, w.gen, s.list[i]);
  }

  // ---- every run ----

  datatype Step =
    | DoRegister(h: HookId)
    | DoHold(t: Tid, h: HookId)
    | DoRele(t: Tid)
    | DoUnregister(t: Tid, h: HookId)
    | DoReturn(t: Tid)
    | BeginWalk(t: Tid)
    | DoVisit
    | EndWalk

  /** One hold of the registry lock. */
  ghost predicate Next(s: State, a: Step, s': State) {
    match a
    case DoRegister(h) => NameFree(s, h) && s' == Register(s, h)
    case DoHold(t, h) => t !in s.inside && CanHold(s, h) && s' == Hold(s, t, h)
    case DoRele(t) => t in s.inside && s.inside[t] in s.hooks && s' == Rele(s, t)
    case DoUnregister(t, h) => h in s.hooks && t !in s.waiting && s' == Unregister(s, t, h)
    case DoReturn(t) => t in s.waiting && Returns(s, t, s.waiting[t]) && s' == Wake(s, t)
    case BeginWalk(t) => s.walk.None? && s' == WalkStart(s, t)
    case DoVisit =>
      && s.walk.Some? && s.walk.value.t !in s.inside
      && (var k := FirstUnmarked(s, s.walk.value.gen, 0);
          k < |s.list| && s.list[k] in s.hooks && s' == Visit(s, s.list[k]))
    case EndWalk => s.walk.Some? && s.walk.value.t !in s.inside && s' == s.(walk := None)
  }

  /** A structure is registered only when no earlier life of it is still being waited for or used. */
  ghost predicate Careful(s: State, a: Step) { a.DoRegister? ==> Idle(s, a.h) }

  lemma QuietStep(s: State, s': State)
    requires Inv(s) && s'.hooks == s.hooks && s'.list == s.list && s'.inside == s.inside && s'.nextGen == s.nextGen
    requires s'.walk == s.walk || s'.walk.None?
    requires s'.waiting.Keys <= s.waiting.Keys && forall t :: t in s'.waiting ==> s'.waiting[t] == s.waiting[t]
    ensures Inv(s')
  {
    forall h ensures HookOk(s', h) {
      assert HookOk(s, h);
      assert Holders(s', h) == Holders(s, h);
    }
    forall u ensures WaitAt(s', u) { assert WaitAt(s, u); }
    if s'.walk.Some? { WalkSame(s, s'); }
  }

  lemma NextKeeps(s: State, a: Step, s': State)
    requires Inv(s) && s.nextGen > 0 && Next(s, a, s') && Careful(s, a)
    ensures Inv(s') && s'.nextGen > 0
  {
    match a
    case DoRegister(h) => RegisterKeeps(s, h);
    case DoHold(t, h) => HoldKeeps(s, t, h);
    case DoRele(t) => ReleKeeps(s, t);
    case DoUnregister(t, h) => UnregisterKeeps(s, t, h);
    case DoReturn(t) => QuietStep(s, s');
    case BeginWalk(t) => WalkStartKeeps(s, t);
    case DoVisit =>
      var k := FirstUnmarked(s, s.walk.value.gen, 0);
      VisitKeeps(s, s.list[k]);
    case EndWalk => QuietStep(s, s');
  }

  ghost predicate Init(s: State) {
    && s.list == [] && s.inside == map[] && s.waiting == map[] && s.walk.None? && s.nextGen == 1
    && forall h :: h in s.hooks ==> !s.hooks[h].active && s.hooks[h].refcnt == 0 && s.hooks[h].gen == 0
  }

  ghost predicate StepAt(r: seq<State>, steps: seq<Step>, k: nat)
    requires |r| == |steps| + 1 && k < |steps|
  {
    Next(r[k], steps[k], r[k + 1]) && Careful(r[k], steps[k])
  }

  ghost predicate Stepwise(r: seq<State>, steps: seq<Step>) {
    |r| == |steps| + 1 && forall k :: 0 <= k < |steps| ==> StepAt(r, steps, k)
  }

  ghost predicate Run(r: seq<State>, steps: seq<Step>) { Stepwise(r, steps) && Init(r[0]) }

  lemma InitHolds(s: State)
    requires Init(s)
    ensures Inv(s) && s.nextGen > 0
  {
    forall h ensures HookOk(s, h) { assert Holders(s, h) == {}; }
  }

  lemma {:induction false} StepwiseKeeps(r: seq<State>, steps: seq<Step>, k: nat)
    requires Stepwise(r, steps) && Inv(r[0]) && r[0].nextGen > 0 && k < |r|
    ensures Inv(r[k]) && r[k].nextGen > 0
  {
    if k > 0 {
      StepwiseKeeps(r, steps, k - 1);
      assert StepAt(r, steps, k - 1);
      NextKeeps(r[k - 1], steps[k - 1], r[k]);
    }
  }

  /** In every state of every run each hook's count is the number of threads inside it. */
  lemma RunKeeps(r: seq<State>, steps: seq<Step>, k: nat)
    requires Run(r, steps) && k < |r|
    ensures Inv(r[k]) && r[k].nextGen > 0
  {
    InitHolds(r[0]);
    StepwiseKeeps(r, steps, k);
  }

  // ---- when unregister may return ----

  /** Step `a` is the return of an unregister of `h` by `t`. */
  predicate ReturnOf(s: State, a: Step, t: Tid, h: HookId) {
    || (a == DoUnregister(t, h) && Returns(s, t, h))
    || (a == DoReturn(t) && t in s.waiting && s.waiting[t] == h)
  }

  /** No thread is inside the hook and none can enter. */
  predicate Quiet(s: State, h: HookId) { Holders(s, h) == {} && h in s.hooks && !CanHold(s, h) }

  /** From `s` on, whatever happens, an unregister returns only when its hook is quiet. */
  ghost predicate SafeFrom(s: State) {
    forall r: seq<State>, steps: seq<Step>, k: nat, t: Tid, h: HookId ::
      Stepwise(r, steps) && r[0] == s && k < |steps| && ReturnOf(r[k], steps[k], t, h) ==> Quiet(r[k + 1], h)
  }

  lemma InvIsSafe(s: State)
    requires Inv(s) && s.nextGen > 0
    ensures SafeFrom(s)
  {
    forall r: seq<State>, steps: seq<Step>, k: nat, t: Tid, h: HookId
      | Stepwise(r, steps) && r[0] == s && k < |steps| && ReturnOf(r[k], steps[k], t, h)
      ensures Quiet(r[k + 1], h)
    {
      StepwiseKeeps(r, steps, k);
      assert StepAt(r, steps, k);
      assert WaitAt(r[k], t);
      ReturnsQuiet(r[k], t, h);
    }
  }

  /** No unregister returns while a thread is inside its hook or could still enter it. */
  lemma UnregisterSafe(r: seq<State>, steps: seq<Step>, k: nat, t: Tid, h: HookId)
    requires Run(r, steps) && k < |steps| && ReturnOf(r[k], steps[k], t, h)
    ensures Quiet(r[k + 1], h)
  {
    InitHolds(r[0]);
    InvIsSafe(r[0]);
  }

  lemma {:induction false} Unused(s: set<nat>) returns (x: nat)
    ensures x !in s && forall y :: y in s ==> y < x
  {
    if s == {} { return 0; }
    var y :| y in s;
    var z := Unused(s - {y});
    x := if z > y then z else y + 1;
    assert s == s - {y} + {y};
  }

  lemma OneStep(s: State, a: Step, s': State)
    requires Next(s, a, s') && !a.DoRegister?
    ensures Stepwise([s, s'], [a])
  {
    assert StepAt([s, s'], [a], 0);
  }

  lemma Unsafe(s: State, a: Step, s': State, t: Tid, h: HookId)
    requires Next(s, a, s') && !a.DoRegister? && ReturnOf(s, a, t, h) && !Quiet(s', h)
    ensures !SafeFrom(s)
  {
    OneStep(s, a, s');
    var r, steps := [s, s'], [a];
    assert r[0] == s && steps[0] == a && r[0 + 1] == s';
    assert Stepwise(r, steps) && ReturnOf(r[0], steps[0], t, h) && !Quiet(r[0 + 1], h);
  }

  /**
   * Registering a structure resets its count.  Every unregister after it is safe exactly when
   * no thread was inside the structure and no unregister of it was still waiting.
   */
  lemma RegisterExact(s: State, h: HookId)
    requires Inv(s) && s.nextGen > 0 && NameFree(s, h)
    ensures SafeFrom(Register(s, h)) <==> Idle(s, h)
  {
    var s' := Register(s, h);
    if Idle(s, h) {
      RegisterKeeps(s, h);
      InvIsSafe(s');
    } else if Holders(s, h) != {} {
      var u := Unused(s.waiting.Keys);
      var s2 := Unregister(s', u, h);
      assert Holders(s2, h) == Holders(s, h);
      Unsafe(s', DoUnregister(u, h), s2, u, h);
    } else {
      var t :| t in s.waiting && s.waiting[t] == h;
      assert CanHold(Wake(s', t), h);
      Unsafe(s', DoReturn(t), Wake(s', t), t, h);
    }
  }

  /** It happens: a thread is inside, an unregister waits for it, and the structure is registered again. */
  lemma RegisteredInUse()
    ensures exists r: seq<State>, steps: seq<Step>, h ::
              Run(r, steps) && NameFree(r[|steps|], h) && !Idle(r[|steps|], h) && !SafeFrom(Register(r[|steps|], h))
  {
    var s0 := State(map[0 := Hook("", false, 0, 0)], [], map[], map[], 1, None);
    var s1 := Register(s0, 0);
    var s2 := Hold(s1, 1, 0);
    var s3 := Unregister(s2, 2, 0);
    var r := [s0, s1, s2, s3];
    var steps := [DoRegister(0), DoHold(1, 0), DoUnregister(2, 0)];
    assert Holders(s0, 0) == {};
    assert StepAt(r, steps, 0);
    assert StepAt(r, steps, 1);
    assert StepAt(r, steps, 2);
    assert Run(r, steps);
    RunKeeps(r, steps, 3);
    assert r[|steps|] == s3;
    RemovedList([0], 0);
    assert 2 in s3.waiting && s3.waiting[2] == 0;
    assert NameFree(s3, 0) && !Idle(s3, 0);
    RegisterExact(s3, 0);
  }

  // ---- what a walk visits ----

  /** From the state after `i` up to `k` one walk is in progress and `h` stays listed. */
  ghost predicate Throughout(r: seq<State>, steps: seq<Step>, i: nat, k: nat, h: HookId) {
    && Run(r, steps) && i < k < |r| && steps[i].BeginWalk?
    && (forall j :: i < j < k ==> !steps[j].EndWalk?)
    && (forall j :: i < j <= k ==> h in r[j].list)
  }

  /** The walk comes to `h`, its first unmarked hook, with the count of threads inside at its limit. */
  predicate Saturated(s: State, a: Step, h: HookId) {
    && a.DoVisit? && s.walk.Some? && h in s.hooks && s.hooks[h].refcnt == MAXREF
    && var k := FirstUnmarked(s, s.walk.value.gen, 0); k < |s.list| && s.list[k] == h
  }

  ghost predicate SaturatedAt(r: seq<State>, steps: seq<Step>, i: nat, k: nat, h: HookId)
    requires k <= |steps| <= |r|
  {
    exists j :: i < j < k && Saturated(r[j], steps[j], h)
  }

  lemma {:induction false} WalkTracks(r: seq<State>, steps: seq<Step>, i: nat, k: nat, h: HookId)
    requires Throughout(r, steps, i, k, h)
    ensures r[k].walk.Some? && h in r[k].walk.value.present
    ensures h in r[k].walk.value.skipped <==> SaturatedAt(r, steps, i, k, h)
    decreases k
  {
    RunKeeps(r, steps, k - 1);
    assert StepAt(r, steps, k - 1);
    if k > i + 1 {
      WalkTracks(r, steps, i, k - 1, h);
      StepTracks(r[k - 1], steps[k - 1], r[k], h);
      if SaturatedAt(r, steps, i, k - 1, h) {
        var j :| i < j < k - 1 && Saturated(r[j], steps[j], h);
      } else if Saturated(r[k - 1], steps[k - 1], h) {
        assert i < k - 1 < k;
      }
    }
  }

  lemma StepTracks(s: State, a: Step, s': State, h: HookId)
    requires Inv(s) && Next(s, a, s') && !a.EndWalk? && h in s.list && h in s'.list
    requires s.walk.Some? && h in s.walk.value.present
    ensures s'.walk.Some? && h in s'.walk.value.present
    ensures h in s'.walk.value.skipped <==> h in s.walk.value.skipped || Saturated(s, a, h)
  {
    if a.DoVisit? {
      var k := FirstUnmarked(s, s.walk.value.gen, 0);
      VisitKeeps(s, s.list[k]);
    } else if a.DoUnregister? && a.h == h {
      RemovedList(s.list, h);
    }
  }

  /**
   * A walk that is not stopped calls back exactly once for every hook registered throughout
   * it, except that it does not call back at all for one that had 65535 threads inside when
   * the walk came to it.
   */
  lemma WalkExact(r: seq<State>, steps: seq<Step>, i: nat, k: nat, h: HookId)
    requires Throughout(r, steps, i, k, h) && r[k].walk.Some?
    requires FirstUnmarked(r[k], r[k].walk.value.gen, 0) == |r[k].list|
    ensures multiset(r[k].walk.value.visited)[h] == if SaturatedAt(r, steps, i, k, h) then 0 else 1
  {
    RunKeeps(r, steps, k);
    WalkTracks(r, steps, i, k, h);
    WalkComplete(r[k], h);
  }

  /** The hook that thread `t` is in. */
  function Entered(t: nat): HookId { 0 }

  /** One hook with `n` threads inside. */
  function Crowd(n: nat): State {
    State(map[0 := Hook("", true, n, 0)], [0], map t: nat | t < n :: Entered(t), map[], 1, None)
  }

  lemma CrowdGrows(n: nat)
    requires n < MAXREF
    ensures Next(Crowd(n), DoHold(n, 0), Crowd(n + 1))
  {
    assert Hold(Crowd(n), n, 0).inside == Crowd(n + 1).inside;
    assert Hold(Crowd(n), n, 0).hooks == Crowd(n + 1).hooks;
  }

  /** The run that fills one hook and then walks. */
  function CrowdRun(): seq<State> {
    var s := WalkStart(Crowd(MAXREF), MAXREF);
    [State(map[0 := Hook("", false, 0, 0)], [], map[], map[], 1, None)]
    + seq(MAXREF + 1, n requires n >= 0 => Crowd(n)) + [s, Visit(s, 0)]
  }

  function CrowdSteps(): seq<Step> {
    [DoRegister(0)] + seq(MAXREF, n requires n >= 0 => DoHold(n, 0)) + [BeginWalk(MAXREF), DoVisit]
  }

  lemma CrowdRuns()
    ensures Run(CrowdRun(), CrowdSteps())
  {
    var r, steps := CrowdRun(), CrowdSteps();
    assert Crowd(0).inside == map[];
    forall k | 0 <= k < |steps| ensures StepAt(r, steps, k) {
      if k == 0 {
        assert Holders(r[0], 0) == {};
        assert r[1] == Crowd(0);
      } else if k <= MAXREF {
        assert r[k] == Crowd(k - 1) && r[k + 1] == Crowd(k) && steps[k] == DoHold(k - 1, 0);
        CrowdGrows(k - 1);
      } else if k == MAXREF + 1 {
        assert r[k] == Crowd(MAXREF);
      }
    }
  }

  /** Such a walk exists. */
  lemma WalkMisses()
    ensures exists r: seq<State>, steps: seq<Step>, i: nat, k: nat, h: HookId ::
              && Throughout(r, steps, i, k, h) && r[k].walk.Some?
              && FirstUnmarked(r[k], r[k].walk.value.gen, 0) == |r[k].list|
              && multiset(r[k].walk.value.visited)[h] == 0
  {
    var r, steps := CrowdRun(), CrowdSteps();
    CrowdRuns();
    var i, k := MAXREF + 1, MAXREF + 3;
    assert Throughout(r, steps, i, k, 0);
    assert r[k].walk.Some?;
    assert FirstUnmarked(r[k], r[k].walk.value.gen, 0) == |r[k].list|;
    assert Saturated(r[i + 1], steps[i + 1], 0);
    WalkExact(r, steps, i, k, 0);
  }

  // ---- the code ----

  /** The registry's fields; each method is one hold of hook_list_lock. */
  class Registry {
    var hooks: map<HookId, Hook>
    var list: seq<HookId>
    var inside: map<Tid, HookId>
    var waiting: map<Tid, HookId>
    var nextGen: nat
    var walk: Option<Walk>

    ghost function View(): State
      reads this
    {
      State(hooks, list, inside, waiting, nextGen, walk)
    }

    constructor ()
      ensures Init(View()) && hooks == map[]
    {
      hooks, list, inside, waiting, nextGen, walk := map[], [], map[], map[], 1, None;
    }

    /** hook_find_locked, over the whole list. */
    method NameTaken(name: string) returns (taken: bool)
      requires Inv(View())
      ensures taken <==> exists h :: h in list && hooks[h].name == name
    {
      var i := 0;
      while i < |list|
        invariant i <= |list| && forall j :: 0 <= j < i ==> list[j] in hooks && hooks[list[j]].name != name
      {
        if hooks[list[i]].name == name { return true; }
        i := i + 1;
      }
      taken := false;
    }

    method RegisterHook(h: HookId) returns (ok: bool)
      requires Inv(View()) && h in hooks && nextGen > 0
      modifies this
      ensures ok == NameFree(old(View()), h) && (Idle(old(View()), h) ==> Inv(View()))
      ensures View() == if ok then Register(old(View()), h) else old(View())
    {
      var taken := NameTaken(hooks[h].name);
      ok := !taken;
      if ok {
        if Idle(View(), h) { RegisterKeeps(View(), h); }
        hooks := hooks[h := hooks[h].(active := true, refcnt := 0, gen := 0)];
        list := [h] + list;
      }
    }

    /** Entering a hook: refused when it is not active or its count is at its limit. */
    method Enter(t: Tid, h: HookId) returns (ok: bool)
      requires Inv(View()) && t !in inside
      modifies this`hooks, this`inside
      ensures ok == CanHold(old(View()), h) && Inv(View())
      ensures ok ==> View() == Hold(old(View()), t, h)
      ensures !ok ==> View() == old(View())
    {
      ok := h in hooks && hooks[h].active && hooks[h].refcnt != MAXREF;
      assert HookOk(View(), h);
      if ok {
        HoldKeeps(View(), t, h);
        hooks := hooks[h := hooks[h].(refcnt := hooks[h].refcnt + 1)];
        inside := inside[t := h];
      }
    }

    method Leave(t: Tid)
      requires Inv(View()) && t in inside
      modifies this`hooks, this`inside
      ensures Inv(View()) && Next(old(View()), DoRele(t), View())
    {
      ReleKeeps(View(), t);
      var h := inside[t];
      hooks := hooks[h := hooks[h].(refcnt := (hooks[h].refcnt - 1) % (MAXREF + 1))];
      inside := inside - {t};
    }

    /** The first hold of the lock in umem_hook_unregister; `done` when it need not wait. */
    method UnregisterHook(t: Tid, h: HookId) returns (done: bool)
      requires Inv(View()) && h in hooks && t !in waiting
      modifies this`hooks, this`list, this`waiting, this`walk
      ensures Inv(View()) && View() == Unregister(old(View()), t, h)
      ensures done == Returns(old(View()), t, h)
    {
      UnregisterKeeps(View(), t, h);
      ghost var s' := Unregister(View(), t, h);
      if hooks[h].active {
        hooks := hooks[h := hooks[h].(active := false)];
        list := Removed(list, h);
        if walk.Some? { walk := Some(walk.value.(present := walk.value.present - {h})); }
      }
      done := hooks[h].refcnt == 0;
      if !done { waiting := waiting[t := h]; }
      assert View() == s';
    }

    /** One pass of the walk loop: the next hook to call back, or None at the end of the list. */
    method NextHook() returns (found: Option<HookId>)
      requires Inv(View()) && walk.Some? && walk.value.t !in inside
      modifies this`hooks, this`inside, this`walk
      ensures Inv(View()) && walk.Some?
      ensures found.Some? ==> Next(old(View()), DoVisit, View())
      ensures found.None? ==> View() == old(View()) && FirstUnmarked(View(), walk.value.gen, 0) == |list|
    {
      var w, i := walk.value, 0;
      while i < |list| && hooks[list[i]].gen == w.gen
        invariant i <= |list| && FirstUnmarked(View(), w.gen, i) == FirstUnmarked(View(), w.gen, 0)
      {
        i := i + 1;
      }
      if i == |list| { return None; }
      var h := list[i];
      VisitKeeps(View(), h);
      hooks := hooks[h := hooks[h].(gen := w.gen)];
      if hooks[h].active && hooks[h].refcnt != MAXREF {
        walk := Some(w.(visited := w.visited + [h]));
        hooks := hooks[h := hooks[h].(refcnt := hooks[h].refcnt + 1)];
        inside := inside[w.t := h];
      } else {
        walk := Some(w.(skipped := w.skipped + {h}));
      }
      found := Some(h);
    }
  }
}
