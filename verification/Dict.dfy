/** A Python dict: a list of entries in insertion order, with distinct keys. */
module Dict {
  import opened Prelude

  datatype Entry<K, V> = Entry(key: K, value: V)

  predicate DistinctKeys<K(==), V>(d: seq<Entry<K, V>>) {
    forall i, j :: 0 <= i < j < |d| ==> d[i].key != d[j].key
  }

  function Get<K(==), V>(d: seq<Entry<K, V>>, k: K): Option<V> {
    if d == [] then None
    else if d[0].key == k then Some(d[0].value)
    else Get(d[1..], k)
  }

  /** d[k] = v: an existing key keeps its place. */
  function Put<K(==), V>(d: seq<Entry<K, V>>, k: K, v: V): seq<Entry<K, V>> {
    if d == [] then [Entry(k, v)]
    else if d[0].key == k then [Entry(k, v)] + d[1..]
    else [d[0]] + Put(d[1..], k, v)
  }

  /** Assignments one after the other. */
  function PutAll<K(==), V>(d: seq<Entry<K, V>>, es: seq<Entry<K, V>>): seq<Entry<K, V>> {
    if es == [] then d
    else Put(PutAll(d, es[..|es| - 1]), es[|es| - 1].key, es[|es| - 1].value)
  }

  /** d.pop(k, None) */
  function Pop<K(==), V>(d: seq<Entry<K, V>>, k: K): seq<Entry<K, V>> {
    if d == [] then []
    else if d[0].key == k then d[1..]
    else [d[0]] + Pop(d[1..], k)
  }

  lemma {:induction false} GetNone<K, V>(d: seq<Entry<K, V>>, k: K)
    ensures Get(d, k) == None <==> forall i :: 0 <= i < |d| ==> d[i].key != k
  {
    if d != [] && d[0].key != k {
      GetNone(d[1..], k);
      if Get(d, k) == None {
        forall i | 0 <= i < |d| ensures d[i].key != k { if i > 0 { assert d[i] == d[1..][i - 1]; } }
      } else {
        var i :| 0 <= i < |d[1..]| && d[1..][i].key == k;
        assert d[i + 1].key == k;
      }
    }
  }

  lemma {:induction false} GetPut<K, V>(d: seq<Entry<K, V>>, k: K, v: V, other: K)
    ensures Get(Put(d, k, v), other) == if other == k then Some(v) else Get(d, other)
  {
    if d != [] && d[0].key != k {
      GetPut(d[1..], k, v, other);
      assert Put(d, k, v)[1..] == Put(d[1..], k, v);
    }
  }

  lemma {:induction false} PutNew<K, V>(d: seq<Entry<K, V>>, k: K, v: V)
    requires forall i :: 0 <= i < |d| ==> d[i].key != k
    ensures Put(d, k, v) == d + [Entry(k, v)]
  {
    if d != [] {
      PutNew(d[1..], k, v);
      assert [d[0]] + (d[1..] + [Entry(k, v)]) == d + [Entry(k, v)];
    }
  }

  lemma {:induction false} PutKeys<K, V>(d: seq<Entry<K, V>>, k: K, v: V)
    ensures forall i :: 0 <= i < |Put(d, k, v)| ==>
              Put(d, k, v)[i].key == k || (i < |d| && Put(d, k, v)[i] == d[i])
    ensures |Put(d, k, v)| >= |d|
  {
    if d != [] && d[0].key != k {
      PutKeys(d[1..], k, v);
      forall i | 0 <= i < |Put(d, k, v)|
        ensures Put(d, k, v)[i].key == k || (i < |d| && Put(d, k, v)[i] == d[i])
      {
        if i > 0 { assert Put(d, k, v)[i] == Put(d[1..], k, v)[i - 1]; }
      }
    }
  }

  lemma {:induction false} GetPop<K, V>(d: seq<Entry<K, V>>, k: K, other: K)
    requires DistinctKeys(d)
    ensures Get(Pop(d, k), other) == if other == k then None else Get(d, other)
  {
    if d != [] {
      if d[0].key == k {
        GetNone(d[1..], k);
      } else {
        GetPop(d[1..], k, other);
        assert Pop(d, k)[1..] == Pop(d[1..], k);
      }
    }
  }

  lemma {:induction false} PopKeys<K, V>(d: seq<Entry<K, V>>, k: K)
    requires DistinctKeys(d)
    ensures DistinctKeys(Pop(d, k)) && forall e :: e in Pop(d, k) ==> e in d
  {
    if d != [] && d[0].key != k {
      PopKeys(d[1..], k);
      var p := Pop(d, k);
      forall i, j | 0 <= i < j < |p| ensures p[i].key != p[j].key {
        assert p[j] == Pop(d[1..], k)[j - 1] && p[j] in d[1..];
        if i > 0 { assert p[i] == Pop(d[1..], k)[i - 1]; }
      }
    }
  }

  lemma {:induction false} PutDistinct<K, V>(d: seq<Entry<K, V>>, k: K, v: V)
    requires DistinctKeys(d)
    ensures DistinctKeys(Put(d, k, v))
  {
    if d != [] && d[0].key != k {
      PutDistinct(d[1..], k, v);
      PutKeys(d[1..], k, v);
      var p := Put(d, k, v);
      forall i, j | 0 <= i < j < |p| ensures p[i].key != p[j].key {
        assert p[j] == Put(d[1..], k, v)[j - 1];
        if i > 0 { assert p[i] == Put(d[1..], k, v)[i - 1]; }
      }
    }
  }

  /** Assigning new, distinct keys appends them in order. */
  lemma {:induction false} PutAllDistinct<K, V>(d: seq<Entry<K, V>>, es: seq<Entry<K, V>>)
    requires DistinctKeys(d + es)
    ensures PutAll(d, es) == d + es
  {
    if es == [] {
      assert d + es == d;
    } else {
      var n := |es| - 1;
      assert d + es == (d + es[..n]) + [es[n]];
      var all := d + es;
      assert DistinctKeys(d + es[..n]) by {
        forall i, j | 0 <= i < j < |d + es[..n]| ensures (d + es[..n])[i].key != (d + es[..n])[j].key {
          assert all[i] == (d + es[..n])[i] && all[j] == (d + es[..n])[j];
        }
      }
      PutAllDistinct(d, es[..n]);
      forall i | 0 <= i < |d + es[..n]| ensures (d + es[..n])[i].key != es[n].key {
        assert all[i] == (d + es[..n])[i] && all[|all| - 1] == es[n];
      }
      PutNew(d + es[..n], es[n].key, es[n].value);
    }
  }

  /** Keys no assignment names keep their value. */
  lemma {:induction false} PutAllOther<K, V>(d: seq<Entry<K, V>>, es: seq<Entry<K, V>>, k: K)
    requires forall i :: 0 <= i < |es| ==> es[i].key != k
    ensures Get(PutAll(d, es), k) == Get(d, k)
  {
    if es != [] {
      var n := |es| - 1;
      PutAllOther(d, es[..n], k);
      GetPut(PutAll(d, es[..n]), es[n].key, es[n].value, k);
    }
  }

  /** An assigned key is there. */
  lemma {:induction false} PutAllHas<K, V>(d: seq<Entry<K, V>>, es: seq<Entry<K, V>>, i: nat)
    requires i < |es|
    ensures Get(PutAll(d, es), es[i].key).Some?
  {
    var n := |es| - 1;
    GetPut(PutAll(d, es[..n]), es[n].key, es[n].value, es[i].key);
    if i < n { PutAllHas(d, es[..n], i); }
  }

  // ------------------------------------------------------- several assignments

  /** The value the last of these assignments gives a key. */
  function Latest<K(==), V>(es: seq<Entry<K, V>>, k: K): Option<V> {
    if es == [] then None
    else
      var later := Latest(es[1..], k);
      if later.Some? then later else if es[0].key == k then Some(es[0].value) else None
  }

  lemma OneAssignment<K, V>(d: seq<Entry<K, V>>, es: seq<Entry<K, V>>)
    requires |es| <= 1
    ensures PutAll(d, es) == if es == [] then d else Put(d, es[0].key, es[0].value)
  {
  }

  lemma {:induction false} PutAllJoin<K, V>(d: seq<Entry<K, V>>, es: seq<Entry<K, V>>, fs: seq<Entry<K, V>>)
    ensures PutAll(d, es + fs) == PutAll(PutAll(d, es), fs)
  {
    hide Put;
    if fs == [] {
      assert es + fs == es;
    } else {
      var n := |fs| - 1;
      assert (es + fs)[..|es| + n] == es + fs[..n];
      PutAllJoin(d, es, fs[..n]);
    }
  }

  /** Of several assignments to one key the last counts. */
  lemma {:induction false} LastAssignmentCounts<K, V>(d: seq<Entry<K, V>>, es: seq<Entry<K, V>>, k: K)
    ensures Get(PutAll(d, es), k) == if Latest(es, k).Some? then Latest(es, k) else Get(d, k)
    decreases |es|
  {
    hide Put, Get, PutAll;
    if es == [] {
      OneAssignment(d, []);
    } else {
      var first := es[..1];
      assert es == first + es[1..];
      PutAllJoin(d, first, es[1..]);
      OneAssignment(d, first);
      GetPut(d, es[0].key, es[0].value, k);
      LastAssignmentCounts(PutAll(d, first), es[1..], k);
    }
  }

  /** An assignment to a key that is there keeps all keys in their places; a new key comes last. */
  lemma {:induction false} PutOrder<K, V>(d: seq<Entry<K, V>>, k: K, v: V)
    ensures |Put(d, k, v)| == |d| + if Get(d, k).None? then 1 else 0
    ensures forall i :: 0 <= i < |d| ==> Put(d, k, v)[i].key == d[i].key
    ensures Get(d, k).None? ==> Put(d, k, v)[|d|] == Entry(k, v)
  {
    if d != [] && d[0].key != k {
      PutOrder(d[1..], k, v);
      forall i | 0 <= i < |d| ensures Put(d, k, v)[i].key == d[i].key {
        if i > 0 { assert d[i] == d[1..][i - 1]; }
      }
    }
  }
}
