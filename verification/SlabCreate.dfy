/** umem_slab_create's carving of a span into chunks: the slab the slab layer starts from. */
module SlabCreate {
  import opened Collections
  import opened Arithmetic
  import opened P2Math
  import opened SlabGeometry
  import SlabLayer

  /** `a` is one of the first `n` buffers of the slab. */
  ghost predicate IsBuffer(g: Geo, slab: nat, color: nat, n: nat, a: nat) {
    exists k: nat :: k < n && a == Buffer(g, slab, color, k)
  }

  /** The first `n` buffers are on the freelist, last one first, each once. */
  ghost predicate Carved(g: Geo, slab: nat, color: nat, n: nat, chunks: set<nat>, free: seq<nat>) {
    && |free| == n == |chunks| && NoDup(free)
    && (forall a :: a in free <==> a in chunks)
    && (forall a :: a in chunks ==> IsBuffer(g, slab, color, n, a))
  }

  lemma CarveOne(g: Geo, slab: nat, color: nat, n: nat, chunks: set<nat>, free: seq<nat>)
    requires g.chunksize > 0 && Carved(g, slab, color, n, chunks, free)
    ensures var a := Buffer(g, slab, color, n);
            a !in chunks && Carved(g, slab, color, n + 1, chunks + {a}, [a] + free)
  {
    var a := Buffer(g, slab, color, n);
    forall b | b in chunks ensures b < a && IsBuffer(g, slab, color, n + 1, b) {
      var k: nat :| k < n && b == Buffer(g, slab, color, k);
      BuffersApart(g, slab, color, k, n);
    }
    assert a == Buffer(g, slab, color, n);
  }

  /** In a cache with embedded headers every chunk's address rounds down to its slab. */
  lemma ChunkHome(g: Geo, q: nat, hdr: nat, slab: nat, color: nat, a: nat)
    requires GeoOk(g, q, hdr) && ColorOk(g, color) && slab % q == 0 && !g.hashed
    requires IsBuffer(g, slab, color, Chunks(g, hdr, color), a)
    ensures a / g.slabsize * g.slabsize == slab
  {
    var k: nat :| k < Chunks(g, hdr, color) && a == Buffer(g, slab, color, k);
    BufferInside(g, q, hdr, slab, color, k);
    BlockStart(a, slab, q);
    assert a == a / q * q + a % q;
  }

  /**
   * The slab is as the slab layer requires of a new one: every chunk free and counted, none
   * at address 0, and, with an embedded header, each leading back to the slab's address.
   */
  method Carve(g: Geo, q: nat, hdr: nat, slab: nat, color: nat) returns (sp: SlabLayer.Slab)
    requires GeoOk(g, q, hdr) && ColorOk(g, color) && slab > 0 && slab % q == 0
    ensures SlabLayer.Created(sp) && |sp.chunks| == Chunks(g, hdr, g.mincolor)
    ensures Carved(g, slab, color, |sp.chunks|, sp.chunks, sp.free)
    ensures !g.hashed ==> forall a :: a in sp.chunks ==> a / g.slabsize * g.slabsize == slab
  {
    SameChunks(g, q, hdr, color);
    var n := Chunks(g, hdr, color);
    var chunks: set<nat>, free: seq<nat>, buf: nat, k: nat := {}, [], slab + color, 0;
    while k < n
      invariant k <= n && Carved(g, slab, color, k, chunks, free) && buf == Buffer(g, slab, color, k)
    {
      CarveOne(g, slab, color, k, chunks, free);
      chunks, free := chunks + {buf}, [buf] + free;
      assert (k + 1) * g.chunksize == k * g.chunksize + g.chunksize;
      buf, k := buf + g.chunksize, k + 1;
    }
    sp := SlabLayer.Slab(chunks, free, 0, SlabLayer.Active, 0, 0);
    forall a | a in chunks ensures a > 0 && (!g.hashed ==> a / g.slabsize * g.slabsize == slab) {
      assert IsBuffer(g, slab, color, n, a);
      if !g.hashed { ChunkHome(g, q, hdr, slab, color, a); }
    }
  }
}
