/**
 * The allocated-address hash table of a hashed cache: bucket chains of bufctls,
 * each naming a buffer handed out by the slab layer and the slab it came from.
 */
module AllocatedHash {
  import opened Collections

  datatype Bufctl = Bufctl(addr: nat, slab: nat)

  type Table = seq<seq<Bufctl>>

  /** UMEM_HASH: `unit` is 2^cache_hash_shift and `n` the (power of two) table size. */
  function Bucket(a: nat, unit: nat, n: nat): (h: nat)
    requires unit > 0 && n > 0
    ensures h < n
  {
    (a / unit) % n
  }

  ghost predicate Has(t: Table, unit: nat, e: Bufctl)
    requires unit > 0 && |t| > 0
  {
    e in t[Bucket(e.addr, unit, |t|)]
  }

  ghost predicate ChainOk(c: seq<Bufctl>, h: nat, unit: nat, n: nat)
    requires unit > 0 && n > 0
  {
    && (forall e :: e in c ==> Bucket(e.addr, unit, n) == h)
    && (forall i, j :: 0 <= i < j < |c| ==> c[i].addr != c[j].addr)
  }

  /** Every entry sits in its own bucket and no address occurs twice. */
  ghost predicate TableOk(t: Table, unit: nat)
  {
    && unit > 0 && |t| > 0
    && forall h :: 0 <= h < |t| ==> ChainOk(t[h], h, unit, |t|)
  }

  ghost predicate Absent(t: Table, unit: nat, a: nat)
    requires unit > 0 && |t| > 0
  {
    forall e :: e in t[Bucket(a, unit, |t|)] ==> e.addr != a
  }

  function Insert(t: Table, unit: nat, e: Bufctl): Table
    requires unit > 0 && |t| > 0
  {
    var h := Bucket(e.addr, unit, |t|);
    t[h := [e] + t[h]]
  }

  /** Position in chain `c` of the bufctl naming `a`; |c| if there is none. */
  function Locate(c: seq<Bufctl>, a: nat): (k: nat)
    ensures k <= |c|
    ensures k < |c| ==> c[k].addr == a
    ensures forall i :: 0 <= i < k ==> c[i].addr != a
  {
    if c == [] then 0 else if c[0].addr == a then 0 else 1 + Locate(c[1..], a)
  }

  function Find(t: Table, unit: nat, a: nat): Option<Bufctl>
    requires unit > 0 && |t| > 0
  {
    var c := t[Bucket(a, unit, |t|)];
    var k := Locate(c, a);
    if k < |c| then Some(c[k]) else None
  }

  function Remove(t: Table, unit: nat, a: nat): Table
    requires unit > 0 && |t| > 0
  {
    var h := Bucket(a, unit, |t|);
    var k := Locate(t[h], a);
    if k < |t[h]| then t[h := t[h][..k] + t[h][k + 1..]] else t
  }

  lemma InsertAdds(t: Table, unit: nat, e: Bufctl)
    requires TableOk(t, unit) && Absent(t, unit, e.addr)
    ensures TableOk(Insert(t, unit, e), unit)
    ensures forall f :: Has(Insert(t, unit, e), unit, f) <==> f == e || Has(t, unit, f)
  {
    var h := Bucket(e.addr, unit, |t|);
    var r := Insert(t, unit, e);
    assert ChainOk(t[h], h, unit, |t|);
    assert ChainOk(r[h], h, unit, |r|);
  }

  lemma RemoveDeletes(t: Table, unit: nat, a: nat)
    requires TableOk(t, unit)
    ensures TableOk(Remove(t, unit, a), unit)
    ensures |Remove(t, unit, a)| == |t|
    ensures forall f :: Has(Remove(t, unit, a), unit, f) <==> f.addr != a && Has(t, unit, f)
  {
    var h := Bucket(a, unit, |t|);
    var c := t[h];
    var k := Locate(c, a);
    assert ChainOk(c, h, unit, |t|);
    var r := Remove(t, unit, a);
    if k < |c| {
      var d := c[..k] + c[k + 1..];
      assert r[h] == d;
      assert forall i :: 0 <= i < |d| ==> d[i] == c[if i < k then i else i + 1];
      assert ChainOk(d, h, unit, |t|);
      assert forall f :: f in d <==> f in c && f.addr != a by {
        forall f | f in c && f.addr != a ensures f in d {
          var i :| 0 <= i < |c| && c[i] == f;
          assert f == d[if i < k then i else i - 1];
        }
      }
    }
  }

  lemma FindExact(t: Table, unit: nat, e: Bufctl)
    requires TableOk(t, unit)
    ensures Find(t, unit, e.addr) == Some(e) <==> Has(t, unit, e)
    ensures Find(t, unit, e.addr).None? <==> Absent(t, unit, e.addr)
  {
    var h := Bucket(e.addr, unit, |t|);
    assert ChainOk(t[h], h, unit, |t|);
  }

  // ---- umem_hash_rescale ----

  function RehashChain(c: seq<Bufctl>, acc: Table, unit: nat): (r: Table)
    requires unit > 0 && |acc| > 0
    ensures |r| == |acc|
    decreases c
  {
    if c == [] then acc else RehashChain(c[1..], Insert(acc, unit, c[0]), unit)
  }

  function RehashFrom(t: Table, h: nat, acc: Table, unit: nat): (r: Table)
    requires unit > 0 && |acc| > 0 && h <= |t|
    ensures |r| == |acc|
    decreases |t| - h
  {
    if h == |t| then acc else RehashFrom(t, h + 1, RehashChain(t[h], acc, unit), unit)
  }

  function Rescale(t: Table, unit: nat, n: nat): (r: Table)
    requires unit > 0 && n > 0
    ensures |r| == n
  {
    RehashFrom(t, 0, seq(n, _ => []), unit)
  }

  lemma {:induction false} RehashChainKeeps(c: seq<Bufctl>, acc: Table, unit: nat)
    requires TableOk(acc, unit)
    requires forall i, j :: 0 <= i < j < |c| ==> c[i].addr != c[j].addr
    requires forall e :: e in c ==> Absent(acc, unit, e.addr)
    ensures TableOk(RehashChain(c, acc, unit), unit)
    ensures forall f :: Has(RehashChain(c, acc, unit), unit, f) <==> f in c || Has(acc, unit, f)
    decreases c
  {
    if c != [] {
      var acc' := Insert(acc, unit, c[0]);
      InsertAdds(acc, unit, c[0]);
      forall e | e in c[1..] ensures Absent(acc', unit, e.addr) {
        assert Absent(acc, unit, e.addr);
      }
      RehashChainKeeps(c[1..], acc', unit);
    }
  }

  /** `acc` holds exactly the entries of the first `h` chains of `t`. */
  ghost predicate Moved(t: Table, h: nat, acc: Table, unit: nat)
    requires unit > 0 && |t| > 0 && |acc| > 0
  {
    forall e :: Has(acc, unit, e) <==> Has(t, unit, e) && Bucket(e.addr, unit, |t|) < h
  }

  lemma {:induction false} RehashFromKeeps(t: Table, h: nat, acc: Table, unit: nat)
    requires TableOk(t, unit) && TableOk(acc, unit) && h <= |t|
    requires Moved(t, h, acc, unit)
    ensures TableOk(RehashFrom(t, h, acc, unit), unit)
    ensures forall e :: Has(RehashFrom(t, h, acc, unit), unit, e) <==> Has(t, unit, e)
    decreases |t| - h
  {
    if h < |t| {
      assert ChainOk(t[h], h, unit, |t|);
      forall e | e in t[h] ensures Absent(acc, unit, e.addr) {
        forall f | f in acc[Bucket(e.addr, unit, |acc|)] ensures f.addr != e.addr {
          assert ChainOk(acc[Bucket(e.addr, unit, |acc|)], Bucket(e.addr, unit, |acc|), unit, |acc|);
          assert Has(acc, unit, f);
        }
      }
      RehashChainKeeps(t[h], acc, unit);
      var acc' := RehashChain(t[h], acc, unit);
      forall e ensures Has(acc', unit, e) <==> Has(t, unit, e) && Bucket(e.addr, unit, |t|) < h + 1 {
        if Has(t, unit, e) && Bucket(e.addr, unit, |t|) == h { assert e in t[h]; }
      }
      RehashFromKeeps(t, h + 1, acc', unit);
    }
  }

  /** Rescaling to any size keeps the address-to-bufctl map exactly. */
  lemma RescaleKeeps(t: Table, unit: nat, n: nat)
    requires TableOk(t, unit) && n > 0
    ensures TableOk(Rescale(t, unit, n), unit)
    ensures forall e :: Has(Rescale(t, unit, n), unit, e) <==> Has(t, unit, e)
  {
    var empty: Table := seq(n, _ => []);
    assert TableOk(empty, unit);
    RehashFromKeeps(t, 0, empty, unit);
  }

  // ---- the table updated in place ----

  class HashTable {
    var table: array<seq<Bufctl>>
    const unit: nat

    constructor (unit: nat, size: nat)
      requires unit > 0 && size > 0
      ensures this.unit == unit && fresh(table)
      ensures table[..] == seq(size, _ => [])
    {
      this.unit := unit;
      table := new seq<Bufctl>[size](_ => []);
    }

    ghost predicate Valid()
      reads this, table
    {
      TableOk(table[..], unit)
    }

    /** umem_slab_alloc's push of a bufctl on the front of its bucket. */
    method Add(e: Bufctl)
      requires Valid() && Absent(table[..], unit, e.addr)
      modifies table
      ensures Valid() && table[..] == Insert(old(table[..]), unit, e)
    {
      InsertAdds(table[..], unit, e);
      var h := Bucket(e.addr, unit, table.Length);
      table[h] := [e] + table[h];
      assert table[..] == Insert(old(table[..]), unit, e);
    }

    /** umem_slab_free's walk of the bucket, unlinking the bufctl of `a`. */
    method Unlink(a: nat) returns (r: Option<Bufctl>)
      requires Valid()
      modifies table
      ensures Valid() && table[..] == Remove(old(table[..]), unit, a)
      ensures r == Find(old(table[..]), unit, a)
    {
      RemoveDeletes(table[..], unit, a);
      var h := Bucket(a, unit, table.Length);
      var c := table[h];
      var k := 0;
      while k < |c| && c[k].addr != a
        invariant k <= |c| && forall i :: 0 <= i < k ==> c[i].addr != a
      {
        k := k + 1;
      }
      if k < |c| {
        r := Some(c[k]);
        table[h] := c[..k] + c[k + 1..];
      } else {
        r := None;
      }
      assert table[..] == Remove(old(table[..]), unit, a);
    }

    /** umem_hash_rescale's move of every chain into a table of `n` buckets. */
    method Rehash(n: nat)
      requires Valid() && n > 0
      modifies this
      ensures Valid() && fresh(table) && table[..] == Rescale(old(table[..]), unit, n)
    {
      RescaleKeeps(table[..], unit, n);
      var before := table[..];
      var next := new seq<Bufctl>[n](_ => []);
      assert next[..] == seq(n, _ => []);
      var h := 0;
      while h < table.Length
        invariant h <= table.Length && table == old(table) && table[..] == before
        invariant next.Length == n && fresh(next)
        invariant RehashFrom(before, h, next[..], unit) == Rescale(before, unit, n)
      {
        var c := table[h];
        while c != []
          invariant table == old(table) && table[..] == before
          invariant RehashFrom(before, h + 1, RehashChain(c, next[..], unit), unit) == Rescale(before, unit, n)
        {
          var b := Bucket(c[0].addr, unit, n);
          ghost var was := next[..];
          next[b] := [c[0]] + next[b];
          assert next[..] == Insert(was, unit, c[0]);
          c := c[1..];
        }
        h := h + 1;
      }
      table := next;
    }
  }
}
