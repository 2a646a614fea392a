/** Python's `dict` as the monitor uses it: keys keep the order in which they
    were first inserted, and assigning to a key that is already present
    replaces its value without moving it. */
module OrderedDict {
  import opened Wrappers

  /** The keys, in iteration order (`list(d.keys())`). */
  function Keys<K, V>(d: seq<(K, V)>): (ks: seq<K>)
    ensures |ks| == |d|
    ensures forall i :: 0 <= i < |d| ==> ks[i] == d[i].0
  {
    if |d| == 0 then [] else [d[0].0] + Keys(d[1..])
  }

  predicate DistinctKeys<K(==), V>(d: seq<(K, V)>) {
    forall i, j :: 0 <= i < j < |d| ==> d[i].0 != d[j].0
  }

  /** `d.get(k)`: the value stored under `k`, if any. */
  function Lookup<K(==), V>(d: seq<(K, V)>, k: K): (r: Option<V>)
    ensures r.None? <==> k !in Keys(d)
  {
    if |d| == 0 then None
    else if d[0].0 == k then Some(d[0].1)
    else
      assert Keys(d) == [d[0].0] + Keys(d[1..]);
      Lookup(d[1..], k)
  }

  /** `d[k] = v`: overwrite in place when `k` is present, append otherwise. */
  function Put<K(==), V>(d: seq<(K, V)>, k: K, v: V): (r: seq<(K, V)>)
    ensures k in Keys(d) ==> |r| == |d|
    ensures k !in Keys(d) ==> r == d + [(k, v)]
  {
    if |d| == 0 then [(k, v)]
    else if d[0].0 == k then [(k, v)] + d[1..]
    else
      assert Keys(d) == [d[0].0] + Keys(d[1..]);
      [d[0]] + Put(d[1..], k, v)
  }

  /** Assignment leaves the key order alone unless the key is new, in which
      case it goes last. */
  lemma {:induction false} PutKeys<K, V>(d: seq<(K, V)>, k: K, v: V)
    ensures Keys(Put(d, k, v)) == if k in Keys(d) then Keys(d) else Keys(d) + [k]
    decreases |d|
  {
    if |d| > 0 && d[0].0 != k {
      PutKeys(d[1..], k, v);
      assert Keys(d) == [d[0].0] + Keys(d[1..]);
      var r := Put(d, k, v);
      assert r == [d[0]] + Put(d[1..], k, v);
      assert Keys(r) == [d[0].0] + Keys(Put(d[1..], k, v));
    } else if |d| > 0 {
      assert Keys(d) == [d[0].0] + Keys(d[1..]);
      var r := Put(d, k, v);
      assert Keys(r) == [k] + Keys(d[1..]);
    }
  }

  /** After `d[k] = v`, reading `k` gives `v` and every other key is unchanged. */
  lemma {:induction false} PutLookup<K, V>(d: seq<(K, V)>, k: K, v: V, k': K)
    ensures Lookup(Put(d, k, v), k') == if k' == k then Some(v) else Lookup(d, k')
    decreases |d|
  {
    if |d| > 0 && d[0].0 != k {
      PutLookup(d[1..], k, v, k');
      var r := Put(d, k, v);
      assert r[1..] == Put(d[1..], k, v);
    } else if |d| > 0 {
      var r := Put(d, k, v);
      if k' != k {
        assert r[1..] == d[1..];
      }
    }
  }

  /** Assignment never creates a second entry for a key. */
  lemma PutDistinct<K, V>(d: seq<(K, V)>, k: K, v: V)
    requires DistinctKeys(d)
    ensures DistinctKeys(Put(d, k, v))
  {
    PutKeys(d, k, v);
    var r := Put(d, k, v);
    var ks := Keys(r);
    assert forall i :: 0 <= i < |r| ==> r[i].0 == ks[i];
    if k in Keys(d) {
      assert forall i :: 0 <= i < |d| ==> d[i].0 == ks[i];
    } else {
      assert forall i :: 0 <= i < |d| ==> d[i].0 == ks[i];
      assert ks[|d|] == k;
    }
  }

  /** The values of `s` in order of first appearance. */
  function Distinct<T(==,!new)>(s: seq<T>): (r: seq<T>)
    ensures forall x :: x in r <==> x in s
    ensures forall i, j :: 0 <= i < j < |r| ==> r[i] != r[j]
    ensures |r| <= |s|
  {
    if |s| == 0 then []
    else
      var d := Distinct(s[..|s| - 1]);
      if s[|s| - 1] in d then d else d + [s[|s| - 1]]
  }

  /** Assigning the values `vs` to the keys `ks`, one after the other. */
  function PutAll<K(==), V>(d: seq<(K, V)>, ks: seq<K>, vs: seq<V>): seq<(K, V)>
    requires |ks| == |vs|
    decreases |ks|
  {
    if |ks| == 0 then d
    else Put(PutAll(d, ks[..|ks| - 1], vs[..|vs| - 1]), ks[|ks| - 1], vs[|vs| - 1])
  }

  lemma PutAllAppend<K, V>(d: seq<(K, V)>, ks: seq<K>, vs: seq<V>, k: K, v: V)
    requires |ks| == |vs|
    ensures PutAll(d, ks + [k], vs + [v]) == Put(PutAll(d, ks, vs), k, v)
  {
    assert (ks + [k])[..|ks|] == ks;
    assert (vs + [v])[..|vs|] == vs;
  }

  /** Starting from an empty dictionary, the keys end up in the order in which
      they were first assigned, each once. */
  lemma {:induction false} PutAllKeys<K(!new), V>(ks: seq<K>, vs: seq<V>)
    requires |ks| == |vs|
    ensures Keys(PutAll([], ks, vs)) == Distinct(ks)
    decreases |ks|
  {
    if |ks| > 0 {
      var n := |ks| - 1;
      var prev := PutAll([], ks[..n], vs[..n]);
      assert PutAll([], ks, vs) == Put(prev, ks[n], vs[n]);
      PutAllKeys(ks[..n], vs[..n]);
      PutKeys(prev, ks[n], vs[n]);
      assert Distinct(ks) == if ks[n] in Distinct(ks[..n]) then Distinct(ks[..n]) else Distinct(ks[..n]) + [ks[n]];
    }
  }

  /** The last assignment to a key is the one that stays. */
  lemma {:induction false} PutAllLast<K, V>(d: seq<(K, V)>, ks: seq<K>, vs: seq<V>, i: nat)
    requires |ks| == |vs| && i < |ks|
    requires forall j :: i < j < |ks| ==> ks[j] != ks[i]
    ensures Lookup(PutAll(d, ks, vs), ks[i]) == Some(vs[i])
    decreases |ks|
  {
    var n := |ks| - 1;
    var prev := PutAllInit(d, ks, vs);
    PutLookup(prev, ks[n], vs[n], ks[i]);
    if i < n {
      LastInPrefix(ks, vs, i, n);
      PutAllLast(d, ks[..n], vs[..n], i);
    }
  }

  /** The assignments before the last one. */
  lemma PutAllInit<K, V>(d: seq<(K, V)>, ks: seq<K>, vs: seq<V>) returns (prev: seq<(K, V)>)
    requires |ks| == |vs| > 0
    ensures prev == PutAll(d, ks[..|ks| - 1], vs[..|vs| - 1])
    ensures PutAll(d, ks, vs) == Put(prev, ks[|ks| - 1], vs[|vs| - 1])
  {
    prev := PutAll(d, ks[..|ks| - 1], vs[..|vs| - 1]);
  }

  lemma LastInPrefix<K, V>(ks: seq<K>, vs: seq<V>, i: nat, n: nat)
    requires |ks| == |vs| && i < n <= |ks|
    requires forall j :: i < j < |ks| ==> ks[j] != ks[i]
    ensures ks[..n][i] == ks[i] && vs[..n][i] == vs[i]
    ensures forall j :: i < j < n ==> ks[..n][j] != ks[..n][i]
  {
  }

  /** A key that is never assigned keeps its old value. */
  lemma {:induction false} PutAllUntouched<K, V>(d: seq<(K, V)>, ks: seq<K>, vs: seq<V>, k: K)
    requires |ks| == |vs| && k !in ks
    ensures Lookup(PutAll(d, ks, vs), k) == Lookup(d, k)
    decreases |ks|
  {
    if |ks| > 0 {
      var n := |ks| - 1;
      var prev := PutAllInit(d, ks, vs);
      PutLookup(prev, ks[n], vs[n], k);
      assert k !in ks[..n];
      PutAllUntouched(d, ks[..n], vs[..n], k);
    }
  }

  /** With no key assigned twice, every assignment appends a new entry. */
  lemma {:induction false} PutAllDistinct<K, V>(ks: seq<K>, vs: seq<V>)
    requires |ks| == |vs|
    requires forall i, j :: 0 <= i < j < |ks| ==> ks[i] != ks[j]
    ensures |PutAll([], ks, vs)| == |ks|
    ensures forall i :: 0 <= i < |ks| ==> PutAll([], ks, vs)[i] == (ks[i], vs[i])
    decreases |ks|
  {
    if |ks| > 0 {
      var n := |ks| - 1;
      PutAllDistinct(ks[..n], vs[..n]);
      var d := PutAll([], ks[..n], vs[..n]);
      assert Keys(d) == ks[..n];
      assert ks[n] !in Keys(d);
      AppendPairs(d, ks, vs);
    }
  }

  lemma AppendPairs<K, V>(d: seq<(K, V)>, ks: seq<K>, vs: seq<V>)
    requires |ks| == |vs| == |d| + 1
    requires forall i :: 0 <= i < |d| ==> d[i] == (ks[..|d|][i], vs[..|d|][i])
    ensures forall i :: 0 <= i < |ks| ==> (d + [(ks[|d|], vs[|d|])])[i] == (ks[i], vs[i])
  {
  }

  /** Assigning the same key twice leaves a single entry with the second value. */
  lemma PutAllSameKey<K, V>(k: K, vs: seq<V>)
    requires |vs| == 2
    ensures PutAll([], [k, k], vs) == [(k, vs[1])]
  {
    var ks := [k, k];
    var once := PutAll([], ks[..1], vs[..1]);
    var none: seq<(K, V)> := [];
    assert ks[..1][..0] == [] && vs[..1][..0] == [];
    assert PutAll(none, ks[..1][..0], vs[..1][..0]) == none;
    assert once == Put(none, k, vs[0]);
    assert once == [(k, vs[0])];
    assert PutAll([], ks, vs) == Put(once, ks[1], vs[1]);
  }

  /** A value that can be read back was stored under that key. */
  lemma {:induction false} LookupFound<K, V>(d: seq<(K, V)>, k: K, v: V)
    requires Lookup(d, k) == Some(v)
    ensures (k, v) in d
    decreases |d|
  {
    if d[0].0 != k {
      LookupFound(d[1..], k, v);
    }
  }

  /** Every entry after `d[k] = v` was already there or is the new one. */
  lemma {:induction false} PutEntries<K, V>(d: seq<(K, V)>, k: K, v: V)
    ensures forall p :: p in Put(d, k, v) ==> p in d || p == (k, v)
    decreases |d|
  {
    if |d| > 0 && d[0].0 != k {
      PutEntries(d[1..], k, v);
      assert Put(d, k, v) == [d[0]] + Put(d[1..], k, v);
    } else if |d| > 0 {
      assert Put(d, k, v) == [(k, v)] + d[1..];
    }
  }

  /** Every value of a dictionary built from nothing was one of the values
      assigned. */
  lemma {:induction false} PutAllValues<K, V>(ks: seq<K>, vs: seq<V>, p: (K, V))
    requires |ks| == |vs| && p in PutAll([], ks, vs)
    ensures p.1 in vs
    decreases |ks|
  {
    if |ks| > 0 {
      var n := |ks| - 1;
      var prev := PutAll([], ks[..n], vs[..n]);
      assert PutAll([], ks, vs) == Put(prev, ks[n], vs[n]);
      PutEntries(prev, ks[n], vs[n]);
      if p in prev {
        PutAllValues(ks[..n], vs[..n], p);
        assert p.1 in vs[..n];
      }
    }
  }

}
