/** Small facts about sequences, multisets and keyed pools that several modules share. */
module Collections {

  datatype Option<+T> = None | Some(value: T)

  ghost predicate NoDup<T>(s: seq<T>)
  {
    forall i, j :: 0 <= i < j < |s| ==> s[i] != s[j]
  }

  lemma HasMember<T>(s: seq<T>)
    requires s != []
    ensures exists x :: x in s
  {
    assert s[0] in s;
  }

  /** The elements of `s` that satisfy `keep`, in order. */
  function Filter<T(!new)>(s: seq<T>, keep: T -> bool): (r: seq<T>)
    ensures forall x :: x in r <==> x in s && keep(x)
    ensures |r| <= |s|
  {
    if s == [] then []
    else if keep(s[0]) then [s[0]] + Filter(s[1..], keep)
    else Filter(s[1..], keep)
  }

  lemma FilterCons<T(!new)>(x: T, s: seq<T>, keep: T -> bool)
    ensures Filter([x] + s, keep) == if keep(x) then [x] + Filter(s, keep) else Filter(s, keep)
  {
    assert ([x] + s)[1..] == s;
  }

  lemma {:induction false} FilterSplit<T(!new)>(s: seq<T>, t: seq<T>, keep: T -> bool)
    ensures Filter(s + t, keep) == Filter(s, keep) + Filter(t, keep)
  {
    if s == [] {
      assert s + t == t;
    } else {
      assert (s + t)[1..] == s[1..] + t;
      FilterSplit(s[1..], t, keep);
    }
  }

  /** Filtering keeps each side of position `f` on its side. */
  lemma FilterSides<T(!new)>(s: seq<T>, f: nat, keep: T -> bool)
    requires f <= |s|
    ensures |Filter(s[..f], keep)| <= |Filter(s, keep)|
    ensures forall i :: 0 <= i < |Filter(s[..f], keep)| ==> Filter(s, keep)[i] in s[..f]
    ensures forall i :: |Filter(s[..f], keep)| <= i < |Filter(s, keep)| ==> Filter(s, keep)[i] in s[f..]
  {
    var p, q := Filter(s[..f], keep), Filter(s[f..], keep);
    assert s == s[..f] + s[f..];
    FilterSplit(s[..f], s[f..], keep);
    forall i | |p| <= i < |p + q| ensures (p + q)[i] in s[f..] {
      assert (p + q)[i] == q[i - |p|] && q[i - |p|] in q;
    }
    forall i | 0 <= i < |p| ensures (p + q)[i] in s[..f] {
      assert (p + q)[i] == p[i] && p[i] in p;
    }
  }

  lemma {:induction false} FilterNoDup<T(!new)>(s: seq<T>, keep: T -> bool)
    requires NoDup(s)
    ensures NoDup(Filter(s, keep))
  {
    if s != [] {
      FilterNoDup(s[1..], keep);
      assert forall x :: x in s[1..] ==> x != s[0];
    }
  }

  lemma {:induction false} NoDupCardinality<T>(s: seq<T>)
    requires NoDup(s)
    ensures |set x | x in s| == |s|
  {
    if s != [] {
      NoDupCardinality(s[1..]);
      assert (set x | x in s) == {s[0]} + (set x | x in s[1..]);
      assert s[0] !in s[1..];
    } else {
      assert (set x | x in s) == {};
    }
  }

  function RemoveAt<T>(s: seq<T>, k: nat): (r: seq<T>)
    requires k < |s|
    ensures |r| == |s| - 1
    ensures forall i :: 0 <= i < k ==> r[i] == s[i]
    ensures forall i :: k <= i < |r| ==> r[i] == s[i + 1]
  {
    s[..k] + s[k + 1..]
  }

  function InsertAt<T>(s: seq<T>, k: nat, x: T): (r: seq<T>)
    requires k <= |s|
    ensures |r| == |s| + 1 && r[k] == x
    ensures forall i :: 0 <= i < k ==> r[i] == s[i]
    ensures forall i :: k < i < |r| ==> r[i] == s[i - 1]
  {
    s[..k] + [x] + s[k..]
  }

  function IndexOf<T(==)>(s: seq<T>, x: T): (k: nat)
    requires x in s
    ensures k < |s| && s[k] == x
  {
    if s[0] == x then 0 else 1 + IndexOf(s[1..], x)
  }

  lemma RemoveMiddle<T>(p: seq<T>, x: T, q: seq<T>)
    ensures RemoveAt(p + [x] + q, |p|) == p + q
  {
    assert (p + [x] + q)[..|p|] == p;
    assert (p + [x] + q)[|p| + 1..] == q;
  }

  lemma RemoveAtNoDup<T>(s: seq<T>, k: nat)
    requires NoDup(s) && k < |s|
    ensures NoDup(RemoveAt(s, k))
    ensures forall x :: x in RemoveAt(s, k) <==> x in s && x != s[k]
  {
    var r := RemoveAt(s, k);
    forall x | x in s && x != s[k] ensures x in r {
      var i :| 0 <= i < |s| && s[i] == x;
      assert x == r[if i < k then i else i - 1];
    }
    forall x | x in r ensures x in s && x != s[k] {
      var i :| 0 <= i < |r| && r[i] == x;
      assert x == s[if i < k then i else i + 1];
    }
  }

  lemma InsertAtNoDup<T>(s: seq<T>, k: nat, x: T)
    requires NoDup(s) && k <= |s| && x !in s
    ensures NoDup(InsertAt(s, k, x))
    ensures forall y :: y in InsertAt(s, k, x) <==> y in s || y == x
  {
    var r := InsertAt(s, k, x);
    forall y | y in s ensures y in r {
      var i :| 0 <= i < |s| && s[i] == y;
      assert y == r[if i < k then i else i + 1];
    }
    forall y | y in r ensures y in s || y == x {
      var i :| 0 <= i < |r| && r[i] == y;
      assert i == k || y == s[if i < k then i else i - 1];
    }
  }

  lemma Cancel<T>(a: multiset<T>, b: multiset<T>, c: multiset<T>)
    requires a + c == b + c
    ensures a == b
  {
    assert a == (a + c) - c;
    assert b == (b + c) - c;
  }

  /** Sums of three, in another order. */
  lemma Regroup<T(!new)>(a: multiset<T>, b: multiset<T>, c: multiset<T>)
    ensures a + multiset{} + c + b == a + b + c == b + a + c == c + a + b
  {
  }

  /** Two withdrawals in a row. */
  lemma Chain<T(!new)>(whole: multiset<T>, mid: multiset<T>, rest: multiset<T>,
                       s: multiset<T>, t: multiset<T>, g: multiset<T>)
    requires mid + s == whole && rest + t + g == mid
    ensures rest + (s + t) + g == whole
  {
    forall x ensures (rest + (s + t) + g)[x] == whole[x] {
      assert (mid + s)[x] == whole[x] && (rest + t + g)[x] == mid[x];
    }
  }

  /** Everything the values of `m` hold, counted with multiplicity. */
  ghost function Pool<K, T>(m: map<K, multiset<T>>): multiset<T>
    decreases |m|
  {
    if m == map[] then multiset{}
    else
      var k :| k in m;
      m[k] + Pool(m - {k})
  }

  lemma {:induction false} PoolSplit<K, T>(m: map<K, multiset<T>>, k: K)
    requires k in m
    ensures Pool(m) == m[k] + Pool(m - {k})
    decreases |m|
  {
    var c :| c in m && Pool(m) == m[c] + Pool(m - {c});
    if c != k {
      PoolSplit(m - {c}, k);
      PoolSplit(m - {k}, c);
      assert m - {c} - {k} == m - {k} - {c};
    }
  }

  lemma PoolAdd<K, T>(m: map<K, multiset<T>>, k: K, v: multiset<T>)
    requires k !in m
    ensures Pool(m[k := v]) == Pool(m) + v
  {
    PoolSplit(m[k := v], k);
    assert m[k := v] - {k} == m;
  }

  lemma PoolUpdate<K, T>(m: map<K, multiset<T>>, k: K, v: multiset<T>)
    requires k in m
    ensures Pool(m[k := v]) + m[k] == Pool(m) + v
  {
    PoolSplit(m, k);
    PoolSplit(m[k := v], k);
    assert m[k := v] - {k} == m - {k};
  }

  lemma {:induction false} PoolHas<K, T>(m: map<K, multiset<T>>, k: K)
    requires k in m
    ensures m[k] <= Pool(m)
  {
    PoolSplit(m, k);
  }

  lemma {:induction false} PoolEmpty<K(!new), T>(m: map<K, multiset<T>>)
    requires forall k :: k in m ==> m[k] == multiset{}
    ensures Pool(m) == multiset{}
    decreases |m|
  {
    if m != map[] {
      var k :| k in m;
      PoolSplit(m, k);
      assert |m - {k}| < |m| by { assert (m - {k}).Keys == m.Keys - {k}; }
      PoolEmpty(m - {k});
    }
  }

  /** Two different values are both part of the whole. */
  lemma PoolPair<K(!new), T>(m: map<K, multiset<T>>, p: K, q: K)
    requires p in m && q in m && p != q
    ensures m[p] + m[q] <= Pool(m)
  {
    PoolSplit(m, p);
    PoolHas(m - {p}, q);
  }
}
