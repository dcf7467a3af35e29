/**
 * How long an emptied slab waits before the reclaimer destroys it.  The documented rule is
 * twice the reclaim delay; the code compares against a uint32 product.
 */
module ReclaimDelay {
  import opened SlabLayer

  /** An emptied slab under successive reclaim passes, and the seconds it had when unlinked. */
  datatype Life = Waiting(sp: Slab) | Gone(seconds: nat)

  function Timing(delay: nat, interval: nat): Config {
    Config(false, 1, 1, delay, interval)
  }

  /** A slab whose last buffer has just been freed. */
  function JustEmptied(): Slab {
    Slab({8}, [8], 0, Dirty, 0, 0)
  }

  /** One complete pass: the walk, then the publication of CLEAN. */
  function Pass(cfg: Config, sp: Slab): Life {
    var aged := Age(cfg, sp);
    if Doomed(cfg, sp) then Gone(aged.emptied)
    else if aged.state.Reclaiming? then Waiting(aged.(state := Clean))
    else Waiting(aged)
  }

  function After(cfg: Config, n: nat): Life {
    if n == 0 then Waiting(JustEmptied())
    else match After(cfg, n - 1)
         case Gone(t) => Gone(t)
         case Waiting(sp) => Pass(cfg, sp)
  }

  /** With this delay, whatever the reap interval, no slab goes before twice the delay. */
  ghost predicate Guaranteed(delay: nat) {
    forall interval: nat, n: nat :: interval < U32 ==>
      match After(Timing(delay, interval), n)
      case Waiting(_) => true
      case Gone(t) => t >= 2 * delay
  }

  ghost predicate WaitOk(cfg: Config, sp: Slab) {
    sp.refcnt == 0 && (sp.state.Dirty? || sp.state.Clean?) && AgeOk(cfg, sp)
  }

  lemma PassKeeps(cfg: Config, sp: Slab)
    requires ConfigOk(cfg) && WaitOk(cfg, sp)
    requires cfg.delay < U32 / 2 || cfg.delay == U32 - 1
    ensures match Pass(cfg, sp)
            case Waiting(sp') => WaitOk(cfg, sp')
            case Gone(t) => t >= 2 * cfg.delay
  {
    var t := sp.emptied + cfg.interval;
    assert (sp.idle + cfg.interval) % U32 == t % U32;
    if Doomed(cfg, sp) && cfg.delay == U32 - 1 {
      assert t >= U32 && t % U32 >= U32 - 2;
    }
  }

  lemma {:induction false} AfterKeeps(delay: nat, interval: nat, n: nat)
    requires delay < U32 && interval < U32
    requires delay < U32 / 2 || delay == U32 - 1
    ensures match After(Timing(delay, interval), n)
            case Waiting(sp) => WaitOk(Timing(delay, interval), sp)
            case Gone(t) => t >= 2 * delay
  {
    if n > 0 {
      AfterKeeps(delay, interval, n - 1);
      match After(Timing(delay, interval), n - 1) {
        case Waiting(sp) => PassKeeps(Timing(delay, interval), sp);
        case Gone(_) =>
      }
    }
  }

  /** One-second passes: the slab stays DIRTY, one second older each time. */
  lemma {:induction false} CountsUp(delay: nat, n: nat)
    requires n < delay < U32
    ensures After(Timing(delay, 1), n) == Waiting(JustEmptied().(idle := n, emptied := n))
  {
    if n > 0 { CountsUp(delay, n - 1); }
  }

  /** For any larger delay but the very largest, one-second passes destroy a slab too early. */
  lemma GoesEarly(delay: nat)
    requires U32 / 2 <= delay < U32 - 1
    ensures After(Timing(delay, 1), delay + 1) == Gone(delay + 1) && delay + 1 < 2 * delay
  {
    CountsUp(delay, delay - 1);
    assert After(Timing(delay, 1), delay)
        == Pass(Timing(delay, 1), JustEmptied().(idle := delay - 1, emptied := delay - 1));
    assert After(Timing(delay, 1), delay) == Waiting(JustEmptied().(idle := delay, emptied := delay, state := Clean));
  }

  /** Exactly the delays for which the documented rule holds. */
  lemma DelayExact(delay: nat)
    requires delay < U32
    ensures Guaranteed(delay) <==> delay < U32 / 2 || delay == U32 - 1
  {
    if delay < U32 / 2 || delay == U32 - 1 {
      forall interval: nat, n: nat | interval < U32
        ensures match After(Timing(delay, interval), n)
                case Waiting(_) => true
                case Gone(t) => t >= 2 * delay
      {
        AfterKeeps(delay, interval, n);
      }
    } else {
      GoesEarly(delay);
    }
  }
}
