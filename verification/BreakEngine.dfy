/**
 * The break engine: allocations that match the armed predicate are stopped until a client
 * continues or arms another predicate.
 */
module BreakEngine {
  import opened Collections

  const U64: nat := 0x1_0000_0000_0000_0000
  const NAMELEN: nat := 31                 // UMEM_CACHE_NAMELEN

  type Tid = nat

  datatype Pred = NoPred | BySize(size: nat) | ByCache(name: string) | BySeq(target: nat) | Leaked

  /** An allocation being checked. */
  datatype Alloc = Alloc(size: nat, cache: Option<string>)

  /** A stopped thread: the generation it waits to see change, its allocation, and the count at its check. */
  datatype Stop = Stop(gen: nat, alloc: Alloc, nth: nat)

  /**
   * `checks` and `hits` count the checks made and the threads stopped since the predicate was
   * armed; `counter` is the 64-bit brk_seq_counter.
   */
  datatype State = State(
    pred: Pred,
    armed: bool,
    leaks: seq<nat>,
    counter: nat,
    gen: nat,
    stopped: nat,
    server: Option<Tid>,
    parked: map<Tid, Stop>,
    checks: nat,
    hits: nat)

  /** Does the predicate pick this allocation, the `nth` checked since arming (modulo 2^64)? */
  predicate Matches(pred: Pred, leaks: seq<nat>, a: Alloc, nth: nat) {
    match pred
    case NoPred => false
    case BySize(n) => a.size == n
    case ByCache(name) => a.cache == Some(name)
    case BySeq(target) => nth == target
    case Leaked => a.size in leaks
  }

  ghost predicate StopOk(s: State, t: Tid) {
    t in s.parked ==>
      && s.parked[t].gen <= s.gen
      && (s.parked[t].gen == s.gen ==> s.armed && Matches(s.pred, s.leaks, s.parked[t].alloc, s.parked[t].nth))
  }

  ghost predicate Inv(s: State) {
    && (s.armed <==> !s.pred.NoPred?)
    && s.stopped == |s.parked|
    && (s.server.Some? ==> s.server.value !in s.parked)
    && (s.pred.BySeq? ==>
          s.pred.target < U64 && SeqOk(s.counter, s.checks, s.pred.target, s.hits))
    && forall t :: StopOk(s, t)
  }

  // ---- operations, each one hold of brk_lock ----

  /** break_disarm_locked. */
  function Disarmed(s: State): State { s.(armed := false, pred := NoPred, leaks := []) }

  function Truncated(name: string): string { if |name| > NAMELEN then name[..NAMELEN] else name }

  /** What cmd_break installs for a well-formed predicate. */
  function Installed(p: Pred): Pred {
    match p
    case ByCache(name) => ByCache(Truncated(name))
    case BySeq(target) => BySeq(target % U64)
    case _ => p
  }

  /** cmd_break: "leaked" keeps the leak set, every other predicate drops it. */
  function Arm(s: State, p: Pred): State {
    var s1 := if p.Leaked? then s.(armed := false, pred := NoPred) else Disarmed(s);
    s1.(gen := s.gen + 1, counter := 0, checks := 0, hits := 0, pred := Installed(p), armed := true)
  }

  function AddSig(s: State, size: nat): State { s.(leaks := s.leaks + [size]) }

  function Continue(s: State): State { Disarmed(s.(gen := s.gen + 1)) }

  /** umem_introspect_break_check by thread `t`. */
  function Check(s: State, t: Tid, a: Alloc): State {
    if s.server == Some(t) || !s.armed then s
    else
      var s1 := s.(counter := if s.pred.BySeq? then (s.counter + 1) % U64 else s.counter, checks := s.checks + 1);
      if Matches(s.pred, s.leaks, a, s1.counter)
      then s1.(stopped := s.stopped + 1, hits := s.hits + 1, parked := s.parked[t := Stop(s.gen, a, s1.counter)])
      else s1
  }

  /** A stopped thread may go once the generation is no longer the one it sampled. */
  predicate MayLeave(s: State, t: Tid) { t in s.parked && s.parked[t].gen != s.gen }

  function Leave(s: State, t: Tid): State
    requires s.stopped > 0
  {
    s.(stopped := s.stopped - 1, parked := s.parked - {t})
  }

  /** umem_introspect_fork_child: only the forking thread exists. */
  function ForkChild(s: State): State {
    Disarmed(s).(gen := 0, counter := 0, stopped := 0, server := None, parked := map[], checks := 0, hits := 0)
  }

  // ---- every run ----

  datatype Step =
    | DoArm(p: Pred)
    | DoSig(size: nat)
    | DoContinue
    | DoCheck(t: Tid, a: Alloc)
    | DoLeave(t: Tid)
    | ServerUp(t: Tid)
    | ServerDown
    | Fork

  /** A thread that is stopped does nothing else. */
  ghost predicate Next(s: State, a: Step, s': State) {
    match a
    case DoArm(p) => !p.NoPred? && s' == Arm(s, p)
    case DoSig(size) => s' == AddSig(s, size)
    case DoContinue => s' == Continue(s)
    case DoCheck(t, al) => t !in s.parked && s' == Check(s, t, al)
    case DoLeave(t) => MayLeave(s, t) && s.stopped > 0 && s' == Leave(s, t)
    case ServerUp(t) => t !in s.parked && s' == s.(server := Some(t))
    case ServerDown => s' == s.(server := None)
    case Fork => s' == ForkChild(s)
  }

  /** How many of the checks 1, ..., checks have a number equal to the target modulo 2^64. */
  function HitsIn(checks: nat, target: nat): nat
    requires target < U64
  {
    if target == 0 then checks / U64 else (checks + (U64 - target)) / U64
  }

  ghost predicate SeqOk(counter: nat, checks: nat, target: nat, hits: nat)
    requires target < U64
  {
    counter == checks % U64 && hits == HitsIn(checks, target)
  }

  lemma SeqKeeps(counter: nat, checks: nat, target: nat, hits: nat)
    requires target < U64 && SeqOk(counter, checks, target, hits)
    ensures var c := (counter + 1) % U64;
            SeqOk(c, checks + 1, target, if c == target then hits + 1 else hits)
  {
  }

  lemma Parks(s: State, t: Tid, stop: Stop)
    requires (forall u :: StopOk(s, u)) && t !in s.parked && s.armed
    requires stop.gen == s.gen && Matches(s.pred, s.leaks, stop.alloc, stop.nth)
    ensures var m := s.parked[t := stop];
            |m| == |s.parked| + 1 && forall u :: StopOk(s.(parked := m), u)
  {
    var s' := s.(parked := s.parked[t := stop]);
    assert s'.parked.Keys == s.parked.Keys + {t};
    assert |s'.parked| == |s'.parked.Keys| && |s.parked| == |s.parked.Keys|;
    forall u ensures StopOk(s', u) { assert StopOk(s, u); }
  }

  lemma CheckKeeps(s: State, t: Tid, a: Alloc)
    requires Inv(s) && t !in s.parked
    ensures Inv(Check(s, t, a))
  {
    var s' := Check(s, t, a);
    if s' != s {
      if s.pred.BySeq? { SeqKeeps(s.counter, s.checks, s.pred.target, s.hits); }
      if t in s'.parked { Parks(s, t, s'.parked[t]); }
      forall u ensures StopOk(s', u) {
        assert StopOk(s, u);
        if t in s'.parked { assert StopOk(s.(parked := s'.parked), u); }
      }
    }
  }

  lemma LeaveKeeps(s: State, t: Tid)
    requires Inv(s) && t in s.parked
    ensures s.stopped > 0 && Inv(Leave(s, t))
  {
    assert |s.parked| == |s.parked.Keys| && t in s.parked.Keys;
    var s' := Leave(s, t);
    assert s'.parked.Keys == s.parked.Keys - {t};
    assert |s'.parked| == |s'.parked.Keys|;
    forall u ensures StopOk(s', u) { assert StopOk(s, u); }
  }

  lemma NextKeeps(s: State, a: Step, s': State)
    requires Inv(s) && Next(s, a, s')
    ensures Inv(s')
  {
    match a
    case DoCheck(t, al) => CheckKeeps(s, t, al);
    case DoLeave(t) => LeaveKeeps(s, t);
    case _ => forall u ensures StopOk(s', u) { assert StopOk(s, u); }
  }

  ghost predicate Init(s: State) {
    && s.pred.NoPred? && !s.armed && s.leaks == [] && s.counter == s.gen == s.stopped == 0
    && s.server.None? && s.parked == map[] && s.checks == s.hits == 0
  }

  ghost predicate Run(r: seq<State>, steps: seq<Step>) {
    && |r| == |steps| + 1 && Init(r[0])
    && forall k {:trigger steps[k]} :: 0 <= k < |steps| ==> Next(r[k], steps[k], r[k + 1])
  }

  lemma {:induction false} RunKeeps(r: seq<State>, steps: seq<Step>, k: nat)
    requires Run(r, steps) && k < |r|
    ensures Inv(r[k])
  {
    if k > 0 {
      RunKeeps(r, steps, k - 1);
      assert Next(r[k - 1], steps[k - 1], r[k]);
      NextKeeps(r[k - 1], steps[k - 1], r[k]);
    }
  }

  /**
   * In every state: a thread held at the current generation matched the predicate that is
   * still armed, the server is not stopped, and brk_stopped counts the stopped threads.
   */
  lemma HeldMatches(r: seq<State>, steps: seq<Step>, k: nat, t: Tid)
    requires Run(r, steps) && k < |r| && t in r[k].parked
    ensures !MayLeave(r[k], t) ==>
              r[k].armed && Matches(r[k].pred, r[k].leaks, r[k].parked[t].alloc, r[k].parked[t].nth)
    ensures r[k].server != Some(t) && r[k].stopped == |r[k].parked|
  {
    RunKeeps(r, steps, k);
    assert StopOk(r[k], t);
  }

  /** Every continue and every arming releases all the threads stopped before it, for good. */
  lemma {:induction false} Released(r: seq<State>, steps: seq<Step>, i: nat, j: nat, t: Tid)
    requires Run(r, steps) && i < j < |r| && (steps[i].DoContinue? || steps[i].DoArm?) && t in r[i].parked
    requires forall k :: i < k < j ==> steps[k] != DoLeave(t) && !steps[k].Fork?
    ensures t in r[j].parked && r[j].parked[t] == r[i].parked[t] && MayLeave(r[j], t)
    ensures r[j].gen > r[i].gen
    decreases j
  {
    RunKeeps(r, steps, i);
    assert StopOk(r[i], t);
    assert Next(r[j - 1], steps[j - 1], r[j]);
    if j > i + 1 { Released(r, steps, i, j - 1, t); }
  }

  /**
   * A sequence predicate stops the target-th allocation checked after it is armed and every
   * 2^64-th one after that, and no other: one in the first 2^64 - 1 checks.
   */
  lemma SeqStopsOne(r: seq<State>, steps: seq<Step>, k: nat)
    requires Run(r, steps) && k < |r| && r[k].pred.BySeq?
    ensures r[k].pred.target < U64 && r[k].hits == HitsIn(r[k].checks, r[k].pred.target)
    ensures r[k].checks < U64 ==> r[k].hits == if 1 <= r[k].pred.target <= r[k].checks then 1 else 0
  {
    RunKeeps(r, steps, k);
  }

  /** What the count means: it goes up at exactly the checks whose number is the target modulo 2^64. */
  lemma HitsStep(checks: nat, target: nat)
    requires target < U64
    ensures HitsIn(0, target) == 0
    ensures HitsIn(checks + 1, target) == HitsIn(checks, target) + if (checks + 1) % U64 == target then 1 else 0
  {
    SeqKeeps(checks % U64, checks, target, HitsIn(checks, target));
  }

  // ---- the code ----

  class Engine {
    var pred: Pred
    var armed: bool
    var leaks: seq<nat>
    var counter: nat
    var gen: nat
    var stopped: nat
    var server: Option<Tid>
    ghost var parked: map<Tid, Stop>
    ghost var checks: nat
    ghost var hits: nat

    ghost function View(): State
      reads this
    {
      State(pred, armed, leaks, counter, gen, stopped, server, parked, checks, hits)
    }

    constructor ()
      ensures Init(View())
    {
      pred, armed, leaks, counter, gen, stopped, server := NoPred, false, [], 0, 0, 0, None;
      parked, checks, hits := map[], 0, 0;
    }

    method DisarmLocked()
      modifies this`armed, this`pred, this`leaks
      ensures View() == Disarmed(old(View()))
    {
      armed := false;
      pred := NoPred;
      leaks := [];
    }

    method CmdBreak(p: Pred)
      requires !p.NoPred?
      modifies this
      ensures View() == Arm(old(View()), p)
    {
      if p.Leaked? {
        armed := false;
        pred := NoPred;
      } else {
        DisarmLocked();
      }
      gen := gen + 1;
      counter := 0;
      pred := Installed(p);
      armed := true;
      checks, hits := 0, 0;
    }

    method CmdContinue()
      modifies this
      ensures View() == Continue(old(View()))
    {
      gen := gen + 1;
      DisarmLocked();
    }

    method InLeakSet(size: nat) returns (found: bool)
      ensures found <==> size in leaks
    {
      var i := 0;
      while i < |leaks|
        invariant i <= |leaks| && size !in leaks[..i]
      {
        if leaks[i] == size { return true; }
        i := i + 1;
      }
      found := false;
    }

    /** The part of the check before the wait; `mine` is the generation a stopped thread waits on. */
    method BreakCheck(t: Tid, a: Alloc) returns (stop: bool, mine: nat)
      modifies this
      ensures View() == Check(old(View()), t, a)
      ensures mine == gen == old(gen)
      ensures stop ==> t in parked && parked[t].gen == mine
      ensures !stop ==> parked == old(parked)
    {
      stop, mine := false, gen;
      if server == Some(t) || !armed { return; }
      checks := checks + 1;
      match pred {
        case NoPred =>
        case BySize(n) => stop := a.size == n;
        case ByCache(name) => stop := a.cache.Some? && a.cache.value == name;
        case BySeq(target) =>
          counter := (counter + 1) % U64;
          stop := counter == target;
        case Leaked => stop := InLeakSet(a.size);
      }
      if stop {
        stopped := stopped + 1;
        hits := hits + 1;
        parked := parked[t := Stop(gen, a, counter)];
      }
    }
  }
}
