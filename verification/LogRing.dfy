/**
 * The transaction log: every CPU writes records into a chunk of its own, and a CPU whose chunk
 * is full swaps it for the one that has been out of use longest.
 */
module LogRing {
  import opened Collections

  /**
   * The log as its users see it: `idle` is the queue of chunks no CPU has, oldest first; each
   * CPU has a chunk, the address its next record goes to, and the bytes left behind it.
   */
  datatype Log = Log(
    base: nat,
    chunksize: nat,
    idle: seq<nat>,
    chunk: seq<nat>,
    current: seq<nat>,
    avail: seq<nat>)

  ghost predicate Shape(g: Log) {
    && |g.chunk| == |g.current| == |g.avail| > 0 && |g.idle| == 3 * |g.chunk|
    && g.base > 0 && g.chunksize > 0
  }

  function Start(g: Log, c: nat): nat { g.base + c * g.chunksize }

  /** A CPU that has logged nothing yet has current NULL and no room; any other fills its chunk. */
  ghost predicate CpuOk(g: Log, i: nat)
    requires Shape(g) && i < |g.chunk|
  {
    || (g.current[i] == 0 && g.avail[i] == 0)
    || (Start(g, g.chunk[i]) <= g.current[i] && g.current[i] + g.avail[i] == Start(g, g.chunk[i] + 1))
  }

  /** The chunks the CPUs have and the idle ones are all the chunks, each once. */
  ghost predicate Inv(g: Log) {
    && Shape(g)
    && NoDup(g.chunk + g.idle) && (forall c :: c in g.chunk + g.idle ==> c < 4 * |g.chunk|)
    && forall i :: 0 <= i < |g.chunk| ==> CpuOk(g, i)
  }

  /** Swap CPU `i`'s chunk for the oldest idle one. */
  function Rotate(g: Log, i: nat): Log
    requires i < |g.chunk| == |g.current| == |g.avail| && g.idle != []
  {
    g.(idle := g.idle[1..] + [g.chunk[i]],
       chunk := g.chunk[i := g.idle[0]],
       current := g.current[i := Start(g, g.idle[0])],
       avail := g.avail[i := g.chunksize])
  }

  predicate MustRotate(g: Log, i: nat, size: nat)
    requires i < |g.avail|
  {
    size > g.avail[i]
  }

  /** umem_log_enter by CPU `i`; an oversize record is cut to a chunk. */
  function Enter(g: Log, i: nat, size: nat): (Log, nat)
    requires i < |g.chunk| == |g.current| == |g.avail| && g.idle != []
  {
    var g1 := if MustRotate(g, i, size) then Rotate(g, i) else g;
    var n := if MustRotate(g, i, size) && size > g.chunksize then g.chunksize else size;
    (g1.(current := g1.current[i := g1.current[i] + n], avail := g1.avail[i := g1.avail[i] - n]), g1.current[i])
  }

  /** Bytes a record takes. */
  function Taken(g: Log, size: nat): nat { if size > g.chunksize then g.chunksize else size }

  /** Where position `a` of the rotated arrangement came from. */
  function Source(n: nat, i: nat, a: nat): nat {
    if a == i then n else if a < n then a else if a < 4 * n - 1 then a + 1 else i
  }

  lemma RotateSource(g: Log, i: nat, a: nat)
    requires Shape(g) && i < |g.chunk| && a < 4 * |g.chunk|
    ensures (Rotate(g, i).chunk + Rotate(g, i).idle)[a] == (g.chunk + g.idle)[Source(|g.chunk|, i, a)]
  {
  }

  lemma RotatePermutes(g: Log, i: nat)
    requires Shape(g) && i < |g.chunk| && NoDup(g.chunk + g.idle)
    ensures NoDup(Rotate(g, i).chunk + Rotate(g, i).idle)
    ensures forall c :: c in Rotate(g, i).chunk + Rotate(g, i).idle ==> c in g.chunk + g.idle
  {
    var n, all, all' := |g.chunk|, g.chunk + g.idle, Rotate(g, i).chunk + Rotate(g, i).idle;
    forall a, b | 0 <= a < b < |all'| ensures all'[a] != all'[b] {
      RotateSource(g, i, a);
      RotateSource(g, i, b);
      assert all[Source(n, i, a)] != all[Source(n, i, b)];
    }
    forall c | c in all' ensures c in all {
      var a :| 0 <= a < |all'| && all'[a] == c;
      RotateSource(g, i, a);
    }
  }

  lemma RotateKeeps(g: Log, i: nat)
    requires Inv(g) && i < |g.chunk|
    ensures Inv(Rotate(g, i))
  {
    var g' := Rotate(g, i);
    RotatePermutes(g, i);
    forall k | 0 <= k < |g.chunk| ensures CpuOk(g', k) {
      assert CpuOk(g, k);
      assert Start(g, g.idle[0]) + g.chunksize == Start(g, g.idle[0] + 1);
    }
  }

  /** Every record keeps the arrangement and the bounds. */
  lemma EnterKeeps(g: Log, i: nat, size: nat)
    requires Inv(g) && i < |g.chunk|
    ensures Inv(Enter(g, i, size).0)
  {
    var g1 := if MustRotate(g, i, size) then Rotate(g, i) else g;
    if MustRotate(g, i, size) { RotateKeeps(g, i); }
    var g' := Enter(g, i, size).0;
    assert g'.chunk + g'.idle == g1.chunk + g1.idle;
    forall k | 0 <= k < |g'.chunk| ensures CpuOk(g', k) { assert CpuOk(g1, k); }
  }

  /** The record lies inside the chunk its CPU has when it is written. */
  ghost predicate InChunk(g: Log, i: nat, at: nat, n: nat)
    requires i < |g.chunk|
  {
    Start(g, g.chunk[i]) <= at && at + n <= Start(g, g.chunk[i] + 1)
  }

  /**
   * A record is inside its CPU's chunk exactly when it is not an empty record on a CPU that
   * has logged nothing yet: that one is given NULL.
   */
  lemma RecordInChunk(g: Log, i: nat, size: nat)
    requires Inv(g) && i < |g.chunk|
    ensures var (g', at) := Enter(g, i, size);
            InChunk(g', i, at, Taken(g, size)) <==> size > 0 || g.current[i] != 0
    ensures size == 0 && g.current[i] == 0 ==> Enter(g, i, size).1 == 0
  {
    assert CpuOk(g, i);
    if MustRotate(g, i, size) {
      assert Start(g, g.idle[0]) + g.chunksize == Start(g, g.idle[0] + 1);
    }
  }

  /** Two CPUs' records never share a byte. */
  lemma RecordsApart(g: Log, i: nat, j: nat, at: nat, n: nat, at': nat, n': nat)
    requires Inv(g) && i < |g.chunk| && j < |g.chunk| && i != j
    requires InChunk(g, i, at, n) && InChunk(g, j, at', n')
    ensures at + n <= at' || at' + n' <= at
  {
    var all := g.chunk + g.idle;
    assert all[i] != all[j];
    if g.chunk[i] < g.chunk[j] {
      StartMonotone(g, g.chunk[i] + 1, g.chunk[j]);
    } else {
      StartMonotone(g, g.chunk[j] + 1, g.chunk[i]);
    }
  }

  lemma StartMonotone(g: Log, a: nat, b: nat)
    requires a <= b
    ensures Start(g, a) <= Start(g, b)
  {
    assert (b - a) * g.chunksize >= 0;
    assert b * g.chunksize == a * g.chunksize + (b - a) * g.chunksize;
  }

  // ---- whole histories ----

  /** One record: which CPU, and its bytes. */
  datatype Record = Record(cpu: nat, data: seq<nat>)

  ghost predicate StepAt(r: seq<Log>, recs: seq<Record>, k: nat)
    requires |r| == |recs| + 1 && k < |recs|
  {
    Shape(r[k]) && recs[k].cpu < |r[k].chunk| && r[k + 1] == Enter(r[k], recs[k].cpu, |recs[k].data|).0
  }

  ghost predicate Run(r: seq<Log>, recs: seq<Record>) {
    |r| == |recs| + 1 && Inv(r[0]) && forall k :: 0 <= k < |recs| ==> StepAt(r, recs, k)
  }

  lemma {:induction false} RunKeeps(r: seq<Log>, recs: seq<Record>, k: nat)
    requires Run(r, recs) && k < |r|
    ensures Inv(r[k]) && |r[k].chunk| == |r[0].chunk|
  {
    if k > 0 {
      RunKeeps(r, recs, k - 1);
      assert StepAt(r, recs, k - 1);
      EnterKeeps(r[k - 1], recs[k - 1].cpu, |recs[k - 1].data|);
    }
  }

  ghost predicate Rotates(r: seq<Log>, recs: seq<Record>, k: nat)
    requires Run(r, recs) && k < |recs|
  {
    assert StepAt(r, recs, k);
    recs[k].cpu < |r[k].chunk| && MustRotate(r[k], recs[k].cpu, |recs[k].data|)
  }

  /** Rotations among the records i, …, j-1. */
  ghost function Rotations(r: seq<Log>, recs: seq<Record>, i: nat, j: nat): nat
    requires Run(r, recs) && i <= j <= |recs|
    decreases j
  {
    if i == j then 0 else Rotations(r, recs, i, j - 1) + if Rotates(r, recs, j - 1) then 1 else 0
  }

  /**
   * A chunk retired by record `i` is `m` places from the front of the queue after
   * 3*ncpus - 1 - m later rotations, whoever makes them, and belongs to no CPU till then.
   */
  lemma {:induction false} RetiredWaits(r: seq<Log>, recs: seq<Record>, i: nat, j: nat)
    requires Run(r, recs) && i < j <= |recs| && Rotates(r, recs, i)
    requires Rotations(r, recs, i + 1, j) < 3 * |r[0].chunk|
    ensures |r[j].idle| == 3 * |r[0].chunk|
    ensures r[j].idle[3 * |r[0].chunk| - 1 - Rotations(r, recs, i + 1, j)] == r[i].chunk[recs[i].cpu]
    decreases j
  {
    RunKeeps(r, recs, j);
    RunKeeps(r, recs, j - 1);
    if j > i + 1 {
      RetiredWaits(r, recs, i, j - 1);
    }
    assert StepAt(r, recs, j - 1);
  }

  /** It is reissued by the (nchunks - ncpus)th rotation after the one that retired it, and by no earlier one. */
  lemma ReissuedInTurn(r: seq<Log>, recs: seq<Record>, i: nat, j: nat)
    requires Run(r, recs) && i < j < |recs| && Rotates(r, recs, i) && Rotates(r, recs, j)
    requires Rotations(r, recs, i + 1, j) < 3 * |r[0].chunk|
    ensures recs[j].cpu < |r[j + 1].chunk|
    ensures r[j + 1].chunk[recs[j].cpu] == r[i].chunk[recs[i].cpu]
            <==> Rotations(r, recs, i + 1, j + 1) == 3 * |r[0].chunk|
  {
    RunKeeps(r, recs, j);
    RunKeeps(r, recs, j + 1);
    RetiredWaits(r, recs, i, j);
    assert StepAt(r, recs, i) && StepAt(r, recs, j);
    var c, m := r[i].chunk[recs[i].cpu], 3 * |r[0].chunk| - 1 - Rotations(r, recs, i + 1, j);
    var all := r[j].chunk + r[j].idle;
    assert all[|r[j].chunk| + m] == c && all[|r[j].chunk|] == r[j].idle[0];
  }

  // ---- the bytes of the records ----

  /** Memory by address; what was never written reads as 0. */
  type Memory = map<nat, nat>

  function Byte(mem: Memory, a: nat): nat { if a in mem then mem[a] else 0 }

  /** bcopy of `data` to `at`. */
  function Copied(mem: Memory, at: nat, data: seq<nat>): Memory {
    if data == [] then mem else Copied(mem, at, data[..|data| - 1])[at + |data| - 1 := data[|data| - 1]]
  }

  lemma {:induction false} CopiedByte(mem: Memory, at: nat, data: seq<nat>, a: nat)
    ensures Byte(Copied(mem, at, data), a) == if at <= a < at + |data| then data[a - at] else Byte(mem, a)
  {
    if data != [] { CopiedByte(mem, at, data[..|data| - 1], a); }
  }

  /** Memory after a record: what does not fit in a chunk is cut off. */
  function Logged(g: Log, mem: Memory, rec: Record): Memory
    requires Shape(g) && rec.cpu < |g.chunk|
  {
    Copied(mem, Enter(g, rec.cpu, |rec.data|).1, rec.data[..Taken(g, |rec.data|)])
  }

  ghost predicate LoggedAt(r: seq<Log>, recs: seq<Record>, mems: seq<Memory>, k: nat)
    requires |r| == |mems| == |recs| + 1 && k < |recs| && StepAt(r, recs, k)
  {
    mems[k + 1] == Logged(r[k], mems[k], recs[k])
  }

  ghost predicate LogRun(r: seq<Log>, recs: seq<Record>, mems: seq<Memory>) {
    Run(r, recs) && |mems| == |r| && forall k :: 0 <= k < |recs| ==> LoggedAt(r, recs, mems, k)
  }

  /** No CPU that has chunk `c` will write below `end`. */
  ghost predicate Past(g: Log, c: nat, end: nat) {
    && |g.current| == |g.chunk|
    && forall x {:trigger g.chunk[x]} :: 0 <= x < |g.chunk| && g.chunk[x] == c ==> g.current[x] >= end
  }

  /** Record by CPU `y` takes chunk `c` back into use. */
  predicate Reissues(g: Log, y: nat, size: nat, c: nat)
    requires Shape(g) && y < |g.chunk|
  {
    MustRotate(g, y, size) && g.idle[0] == c
  }

  lemma PastStep(g: Log, y: nat, size: nat, c: nat, end: nat)
    requires Inv(g) && y < |g.chunk| && Past(g, c, end) && !Reissues(g, y, size, c)
    ensures Past(Enter(g, y, size).0, c, end)
  {
    var g' := Enter(g, y, size).0;
    forall x {:trigger g'.chunk[x]} | 0 <= x < |g'.chunk| && g'.chunk[x] == c ensures g'.current[x] >= end {
      assert x != y ==> g.chunk[x] == c;
      if !MustRotate(g, y, size) { assert g.chunk[x] == c; }
    }
  }

  /** A later record leaves the bytes of [lo, end) in chunk `c` alone. */
  lemma WritesElsewhere(g: Log, y: nat, size: nat, c: nat, lo: nat, end: nat)
    requires Inv(g) && y < |g.chunk| && Past(g, c, end) && !Reissues(g, y, size, c)
    requires Start(g, c) <= lo <= end <= Start(g, c + 1)
    ensures var at, n := Enter(g, y, size).1, Taken(g, size); n == 0 || at + n <= lo || end <= at
  {
    var g', at := Enter(g, y, size).0, Enter(g, y, size).1;
    var d := g'.chunk[y];
    if size > 0 {
      RecordInChunk(g, y, size);
      if d < c {
        StartMonotone(g, d + 1, c);
      } else if d > c {
        StartMonotone(g, c + 1, d);
      } else {
        assert !MustRotate(g, y, size) && g.chunk[y] == c;
      }
    }
  }

  /** Where record `i` lies, how many bytes of it, and in which chunk. */
  ghost function At(r: seq<Log>, recs: seq<Record>, i: nat): nat
    requires Run(r, recs) && i < |recs|
  {
    assert StepAt(r, recs, i);
    Enter(r[i], recs[i].cpu, |recs[i].data|).1
  }

  ghost function Length(r: seq<Log>, recs: seq<Record>, i: nat): nat
    requires Run(r, recs) && i < |recs|
  {
    Taken(r[i], |recs[i].data|)
  }

  ghost function ChunkOf(r: seq<Log>, recs: seq<Record>, i: nat): nat
    requires Run(r, recs) && i < |recs|
  {
    assert StepAt(r, recs, i);
    r[i + 1].chunk[recs[i].cpu]
  }

  /** Record `k` takes chunk `c` back into use. */
  ghost predicate ReissuesAt(r: seq<Log>, recs: seq<Record>, k: nat, c: nat)
    requires Run(r, recs) && k < |recs|
  {
    assert StepAt(r, recs, k);
    Reissues(r[k], recs[k].cpu, |recs[k].data|, c)
  }

  lemma PlaceOf(r: seq<Log>, recs: seq<Record>, i: nat)
    requires Run(r, recs) && i < |recs| && Length(r, recs, i) > 0
    ensures var at, n, c := At(r, recs, i), Length(r, recs, i), ChunkOf(r, recs, i);
            && Start(r[i], c) <= at && at + n <= Start(r[i], c + 1) && Past(r[i + 1], c, at + n)
  {
    RunKeeps(r, recs, i);
    assert StepAt(r, recs, i);
    RecordInChunk(r[i], recs[i].cpu, |recs[i].data|);
    FirstPast(r[i], recs[i].cpu, |recs[i].data|);
  }

  lemma {:induction false} StaysPast(r: seq<Log>, recs: seq<Record>, i: nat, j: nat)
    requires Run(r, recs) && i < j <= |recs| && Length(r, recs, i) > 0
    requires forall k :: i < k < j ==> !ReissuesAt(r, recs, k, ChunkOf(r, recs, i))
    ensures Past(r[j], ChunkOf(r, recs, i), At(r, recs, i) + Length(r, recs, i))
    decreases j
  {
    if j == i + 1 {
      PlaceOf(r, recs, i);
    } else {
      StaysPast(r, recs, i, j - 1);
      RunKeeps(r, recs, j - 1);
      assert StepAt(r, recs, j - 1) && !ReissuesAt(r, recs, j - 1, ChunkOf(r, recs, i));
      PastStep(r[j - 1], recs[j - 1].cpu, |recs[j - 1].data|, ChunkOf(r, recs, i), At(r, recs, i) + Length(r, recs, i));
    }
  }

  /** Record `k` does not touch the bytes of record `i`. */
  lemma NotTouched(r: seq<Log>, recs: seq<Record>, mems: seq<Memory>, i: nat, k: nat, a: nat)
    requires LogRun(r, recs, mems) && i < k < |recs| && At(r, recs, i) <= a < At(r, recs, i) + Length(r, recs, i)
    requires Past(r[k], ChunkOf(r, recs, i), At(r, recs, i) + Length(r, recs, i))
    requires !ReissuesAt(r, recs, k, ChunkOf(r, recs, i))
    ensures Byte(mems[k + 1], a) == Byte(mems[k], a)
  {
    var at, n, c := At(r, recs, i), Length(r, recs, i), ChunkOf(r, recs, i);
    RunKeeps(r, recs, k);
    assert StepAt(r, recs, k) && LoggedAt(r, recs, mems, k);
    PlaceOf(r, recs, i);
    SameBase(r, recs, i, k);
    WritesElsewhere(r[k], recs[k].cpu, |recs[k].data|, c, at, at + n);
    CopiedByte(mems[k], At(r, recs, k), recs[k].data[..Length(r, recs, k)], a);
  }

  /** The record stays as it was written until its chunk is taken back into use. */
  lemma {:induction false} RecordStays(r: seq<Log>, recs: seq<Record>, mems: seq<Memory>, i: nat, j: nat, a: nat)
    requires LogRun(r, recs, mems) && i < j <= |recs| && At(r, recs, i) <= a < At(r, recs, i) + Length(r, recs, i)
    requires forall k :: i < k < j ==> !ReissuesAt(r, recs, k, ChunkOf(r, recs, i))
    ensures Byte(mems[j], a) == recs[i].data[a - At(r, recs, i)]
    decreases j
  {
    if j == i + 1 {
      assert StepAt(r, recs, i) && LoggedAt(r, recs, mems, i);
      CopiedByte(mems[i], At(r, recs, i), recs[i].data[..Length(r, recs, i)], a);
    } else {
      RecordStays(r, recs, mems, i, j - 1, a);
      StaysPast(r, recs, i, j - 1);
      NotTouched(r, recs, mems, i, j - 1, a);
    }
  }

  /** The chunk of record `i` is a CPU's, or far enough back in the queue. */
  ghost predicate FarBack(g: Log, c: nat, turns: nat) {
    c in g.chunk || exists p :: 0 <= p < |g.idle| && g.idle[p] == c && p + turns >= 3 * |g.chunk|
  }

  lemma NotFirst(g: Log, c: nat, turns: nat)
    requires Inv(g) && FarBack(g, c, turns) && turns < 3 * |g.chunk|
    ensures g.idle[0] != c
  {
    var all, n := g.chunk + g.idle, |g.chunk|;
    assert all[n] == g.idle[0];
    if c in g.chunk {
      var x :| 0 <= x < n && g.chunk[x] == c;
      assert all[x] == c;
    } else {
      var p :| 0 <= p < |g.idle| && g.idle[p] == c && p + turns >= 3 * n;
      assert all[n + p] == c;
    }
  }

  lemma FarBackStep(g: Log, y: nat, size: nat, c: nat, turns: nat)
    requires Inv(g) && y < |g.chunk| && FarBack(g, c, turns)
    requires MustRotate(g, y, size) ==> turns < 3 * |g.chunk|
    ensures !Reissues(g, y, size, c)
    ensures FarBack(Enter(g, y, size).0, c, turns + if MustRotate(g, y, size) then 1 else 0)
  {
    var g' := Enter(g, y, size).0;
    if MustRotate(g, y, size) { NotFirst(g, c, turns); }
    if MustRotate(g, y, size) {
      if c in g.chunk {
        var x :| 0 <= x < |g.chunk| && g.chunk[x] == c;
        if x == y { assert g'.idle[3 * |g.chunk| - 1] == c; } else { assert g'.chunk[x] == c; }
      } else {
        var p :| 0 <= p < |g.idle| && g.idle[p] == c && p + turns >= 3 * |g.chunk|;
        assert p > 0 && g'.idle[p - 1] == c;
      }
    }
  }

  lemma {:induction false} ChunkWaits(r: seq<Log>, recs: seq<Record>, i: nat, j: nat)
    requires Run(r, recs) && i < j <= |recs| && Rotations(r, recs, i + 1, j) <= 3 * |r[0].chunk|
    ensures FarBack(r[j], ChunkOf(r, recs, i), Rotations(r, recs, i + 1, j))
    ensures forall k :: i < k < j ==> !ReissuesAt(r, recs, k, ChunkOf(r, recs, i))
    decreases j
  {
    RunKeeps(r, recs, j - 1);
    assert StepAt(r, recs, j - 1);
    if j > i + 1 {
      ChunkWaits(r, recs, i, j - 1);
      FarBackStep(r[j - 1], recs[j - 1].cpu, |recs[j - 1].data|, ChunkOf(r, recs, i), Rotations(r, recs, i + 1, j - 1));
    }
  }

  /** The log keeps every record for at least nchunks - ncpus rotations after it, whoever makes them. */
  lemma RecordKept(r: seq<Log>, recs: seq<Record>, mems: seq<Memory>, i: nat, j: nat, a: nat)
    requires LogRun(r, recs, mems) && i < j <= |recs| && Rotations(r, recs, i + 1, j) <= 3 * |r[0].chunk|
    requires At(r, recs, i) <= a < At(r, recs, i) + Length(r, recs, i)
    ensures Byte(mems[j], a) == recs[i].data[a - At(r, recs, i)]
  {
    ChunkWaits(r, recs, i, j);
    RecordStays(r, recs, mems, i, j, a);
  }

  lemma FirstPast(g: Log, i: nat, size: nat)
    requires Inv(g) && i < |g.chunk|
    ensures var g' := Enter(g, i, size).0; Past(g', g'.chunk[i], Enter(g, i, size).1 + Taken(g, size))
  {
    var g' := Enter(g, i, size).0;
    EnterKeeps(g, i, size);
    assert CpuOk(g, i);
    var all := g'.chunk + g'.idle;
    forall x {:trigger g'.chunk[x]} | 0 <= x < |g'.chunk| && g'.chunk[x] == g'.chunk[i] ensures x == i {
      assert all[x] == all[i];
    }
  }

  lemma {:induction false} SameBase(r: seq<Log>, recs: seq<Record>, i: nat, k: nat)
    requires Run(r, recs) && i <= k < |r|
    ensures r[k].base == r[i].base && r[k].chunksize == r[i].chunksize
  {
    if i < k {
      SameBase(r, recs, i, k - 1);
      assert StepAt(r, recs, k - 1);
    }
  }

  // ---- the code ----

  /** umem_log_header: the idle chunks sit in the ring lh_free from lh_head on. */
  class LogHeader {
    var base: nat
    var chunksize: nat
    var nchunks: nat
    var head: nat
    var tail: nat
    const free: array<nat>
    const chunk: array<nat>
    const current: array<nat>
    const avail: array<nat>
    var mem: Memory

    /** Ring arithmetic: the queue starts at lh_head and ends just before lh_tail. */
    ghost predicate RingOk()
      reads this, free
    {
      && chunk.Length == current.Length == avail.Length > 0
      && nchunks == free.Length == 4 * chunk.Length
      && head < nchunks && tail < nchunks && head == Wrap(tail + chunk.Length, nchunks)
      && free != chunk && free != current && free != avail
      && chunk != current && chunk != avail && current != avail
    }

    ghost function Idle(): seq<nat>
      requires RingOk()
      reads this, free
    {
      seq(3 * chunk.Length, k requires 0 <= k < 3 * chunk.Length reads this, free requires RingOk() =>
        free[Wrap(head + k, nchunks)])
    }

    ghost function View(): Log
      requires RingOk()
      reads this, free, chunk, current, avail
    {
      Log(base, chunksize, Idle(), chunk[..], current[..], avail[..])
    }

    /** umem_log_init over memory at `at`, with the chunk size already rounded to pages. */
    constructor (ncpus: nat, at: nat, size: nat)
      requires ncpus > 0 && at > 0 && size > 0
      ensures RingOk() && fresh(free) && fresh(chunk) && fresh(current) && fresh(avail)
      ensures First(View(), at, size, ncpus)
    {
      base, chunksize, nchunks := at, size, 4 * ncpus;
      head, tail := ncpus, 0;
      free := new nat[4 * ncpus](k => k);
      chunk := new nat[ncpus](k => k);
      current := new nat[ncpus](_ => 0);
      avail := new nat[ncpus](_ => 0);
      mem := map[];
    }

    /** Move lh_head or lh_tail on. */
    method Advance(x: nat) returns (y: nat)
      requires RingOk() && x < nchunks
      ensures y == Wrap(x + 1, nchunks)
    {
      WrapMod(x + 1, nchunks);
      y := (x + 1) % nchunks;
    }

    /** Put a retired chunk at the tail of the ring and take the one at its head. */
    method Turn(retired: nat) returns (issued: nat)
      requires RingOk()
      modifies this`head, this`tail, free
      ensures RingOk() && issued == old(Idle())[0] && Idle() == old(Idle())[1..] + [retired]
    {
      ghost var was, idle := free[..], Idle();
      var nextTail := Advance(tail);
      var nextHead := Advance(head);
      free[tail] := retired;
      NextWindow(was, free[..], chunk.Length, head, tail, idle);
      issued := free[head];
      tail, head := nextTail, nextHead;
    }

    /** The part of umem_log_enter under lh_lock. */
    method Swap(i: nat)
      requires RingOk() && i < chunk.Length
      modifies this`head, this`tail, free, chunk, current, avail
      ensures RingOk() && View() == Rotate(old(View()), i)
    {
      var issued := Turn(chunk[i]);
      ghost var idle := Idle();
      chunk[i] := issued;
      current[i] := base + issued * chunksize;
      avail[i] := chunksize;
      assert Idle() == idle;
    }

    method Copy(at: nat, data: seq<nat>)
      modifies this`mem
      ensures mem == Copied(old(mem), at, data)
    {
      var k := 0;
      while k < |data|
        invariant k <= |data| && mem == Copied(old(mem), at, data[..k])
      {
        mem := mem[at + k := data[k]];
        assert data[..k + 1][..k] == data[..k];
        k := k + 1;
      }
      assert data[..k] == data;
    }

    /** The address and the length given to a record of `size` bytes by CPU `i`. */
    method Place(i: nat, size: nat) returns (at: nat, n: nat)
      requires RingOk() && i < chunk.Length
      modifies this`head, this`tail, free, chunk, current, avail
      ensures RingOk() && (View(), at) == Enter(old(View()), i, size)
      ensures n == if size > old(avail[i]) && size > chunksize then chunksize else size
    {
      n := size;
      if size > avail[i] {
        Swap(i);
        if n > chunksize { n := chunksize; }
      }
      at := current[i];
      current[i] := current[i] + n;
      avail[i] := avail[i] - n;
    }

    /** umem_log_enter by CPU `i`. */
    method Write(i: nat, data: seq<nat>) returns (at: nat)
      requires RingOk() && i < chunk.Length && Inv(View())
      modifies this`head, this`tail, this`mem, free, chunk, current, avail
      ensures RingOk() && (View(), at) == Enter(old(View()), i, |data|)
      ensures mem == Logged(old(View()), old(mem), Record(i, data))
    {
      ghost var g := View();
      TakenIs(g, i, |data|);
      var n;
      at, n := Place(i, |data|);
      ghost var g' := View();
      Copy(at, data[..n]);
      assert View() == g';
    }
  }

  lemma TakenIs(g: Log, i: nat, size: nat)
    requires Inv(g) && i < |g.chunk|
    ensures Taken(g, size) == if size > g.avail[i] && size > g.chunksize then g.chunksize else size
  {
    assert CpuOk(g, i);
  }

  /** The log as umem_log_init leaves it: CPU k has chunk k and nothing logged. */
  ghost predicate First(g: Log, at: nat, size: nat, n: nat) {
    && g.base == at && g.chunksize == size && |g.idle| == 3 * n && |g.chunk| == |g.current| == |g.avail| == n
    && (forall k :: 0 <= k < n ==> g.chunk[k] == k && g.current[k] == g.avail[k] == 0)
    && (forall k :: 0 <= k < 3 * n ==> g.idle[k] == n + k)
  }

  lemma FirstKeeps(g: Log, at: nat, size: nat, n: nat)
    requires n > 0 && at > 0 && size > 0 && First(g, at, size, n)
    ensures Inv(g)
  {
    var all := g.chunk + g.idle;
    assert forall a :: 0 <= a < 4 * n ==> all[a] == a;
  }

  /** x modulo m for x below 2m. */
  function Wrap(x: nat, m: nat): nat { if x < m then x else x - m }

  lemma WrapMod(x: nat, m: nat)
    requires x < 2 * m
    ensures x % m == Wrap(x, m)
  {
    if x >= m { assert x == 1 * m + (x - m); }
  }

  /** Storing at lh_tail and moving lh_head on takes the first of the queue and adds one at its end. */
  lemma NextWindow(was: seq<nat>, now: seq<nat>, n: nat, h: nat, tail: nat, idle: seq<nat>)
    requires n > 0 && |was| == |now| == 4 * n && tail < 4 * n && h == Wrap(tail + n, 4 * n)
    requires forall k :: 0 <= k < 4 * n && k != tail ==> now[k] == was[k]
    requires |idle| == 3 * n && forall k :: 0 <= k < 3 * n ==> idle[k] == was[Wrap(h + k, 4 * n)]
    ensures now[h] == idle[0]
    ensures forall k :: 0 <= k < 3 * n ==>
              now[Wrap(Wrap(h + 1, 4 * n) + k, 4 * n)] == (idle[1..] + [now[tail]])[k]
  {
    assert idle[0] == was[Wrap(h + 0, 4 * n)];
    forall k | 0 <= k < 3 * n ensures now[Wrap(Wrap(h + 1, 4 * n) + k, 4 * n)] == (idle[1..] + [now[tail]])[k] {
      if k < 3 * n - 1 { assert idle[k + 1] == was[Wrap(h + (k + 1), 4 * n)]; }
    }
  }
}
