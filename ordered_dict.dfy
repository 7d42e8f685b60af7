/**
 * Python's insertion-ordered `dict`, as an association list. Assigning to a
 * present key keeps its position and replaces its value; assigning to a new
 * key appends it. Iterating a dict (`d.items()`) is walking the list from the
 * front. A dict built from `[]` by assignments never repeats a key
 * (`PutUniqueKeys`).
 */
module OrderedDict {
  import opened Wrappers

  type Dict<K, V> = seq<(K, V)>

  predicate UniqueKeys<K(==), V>(d: Dict<K, V>) {
    forall i, j :: 0 <= i < j < |d| ==> d[i].0 != d[j].0
  }

  /** Position of the first entry with key `k`, or `|d|` when `k` is absent. */
  function IndexOfKey<K(==), V>(d: Dict<K, V>, k: K): (i: nat)
    ensures i <= |d|
    ensures i < |d| ==> d[i].0 == k
  {
    if d == [] then 0 else if d[0].0 == k then 0 else 1 + IndexOfKey(d[1..], k)
  }

  /** No entry before the found position has the key. */
  lemma {:induction false} IndexOfKeyFirst<K, V>(d: Dict<K, V>, k: K, j: nat)
    requires j < IndexOfKey(d, k)
    ensures d[j].0 != k
  {
    if j > 0 {
      IndexOfKeyFirst(d[1..], k, j - 1);
    }
  }

  /** A key at position `j` is found at `j` or earlier. */
  lemma {:induction false} IndexOfKeyAtMost<K, V>(d: Dict<K, V>, j: nat)
    requires j < |d|
    ensures IndexOfKey(d, d[j].0) <= j
  {
    if j > 0 && d[0].0 != d[j].0 {
      IndexOfKeyAtMost(d[1..], j - 1);
    }
  }

  /** The position found depends on the keys alone. */
  lemma {:induction false} IndexOfKeySameKeys<K, V>(d: Dict<K, V>, e: Dict<K, V>, k: K)
    requires |d| == |e| && forall i :: 0 <= i < |d| ==> d[i].0 == e[i].0
    ensures IndexOfKey(d, k) == IndexOfKey(e, k)
  {
    if d != [] && d[0].0 != k {
      assert forall i :: 0 <= i < |d| - 1 ==> d[1..][i] == d[i + 1] && e[1..][i] == e[i + 1];
      IndexOfKeySameKeys(d[1..], e[1..], k);
    }
  }

  /** Appending an entry moves no earlier result, and finds the new key at the end. */
  lemma {:induction false} IndexOfKeyAppend<K, V>(d: Dict<K, V>, x: (K, V), k: K)
    ensures IndexOfKey(d + [x], k) ==
      if IndexOfKey(d, k) < |d| then IndexOfKey(d, k) else if x.0 == k then |d| else |d| + 1
  {
    if d != [] && d[0].0 != k {
      assert (d + [x])[1..] == d[1..] + [x];
      IndexOfKeyAppend(d[1..], x, k);
    }
  }

  /** `d.get(k)`: the value stored under `k`, if any. */
  function Lookup<K(==), V>(d: Dict<K, V>, k: K): Option<V> {
    var i := IndexOfKey(d, k);
    if i < |d| then Some(d[i].1) else None
  }

  /** A key is present exactly when some entry has it. */
  lemma LookupPresent<K, V>(d: Dict<K, V>, k: K)
    ensures Lookup(d, k).Some? <==> exists i :: 0 <= i < |d| && d[i].0 == k
  {
    if exists i :: 0 <= i < |d| && d[i].0 == k {
      var i :| 0 <= i < |d| && d[i].0 == k;
      IndexOfKeyAtMost(d, i);
    }
  }

  /** With distinct keys, every entry is what a lookup of its key returns. */
  lemma LookupEntry<K, V>(d: Dict<K, V>, i: nat)
    requires UniqueKeys(d) && i < |d|
    ensures Lookup(d, d[i].0) == Some(d[i].1)
  {
    IndexOfKeyAtMost(d, i);
  }

  function Keys<K, V>(d: Dict<K, V>): seq<K> {
    seq(|d|, i requires 0 <= i < |d| => d[i].0)
  }

  /**
   * `d[k] = v`: afterwards `k` maps to `v`, every other key keeps its value,
   * and the dict grows by one exactly when `k` was new.
   */
  function Put<K(==,!new), V>(d: Dict<K, V>, k: K, v: V): (r: Dict<K, V>)
    ensures Lookup(r, k) == Some(v)
    ensures forall k' :: k' != k ==> Lookup(r, k') == Lookup(d, k')
    ensures |r| == if Lookup(d, k).Some? then |d| else |d| + 1
  {
    var i := IndexOfKey(d, k);
    if i < |d| then
      var r := d[i := (k, v)];
      assert forall k' :: IndexOfKey(r, k') == IndexOfKey(d, k') by {
        forall k' ensures IndexOfKey(r, k') == IndexOfKey(d, k') {
          IndexOfKeySameKeys(r, d, k');
        }
      }
      r
    else
      var r := d + [(k, v)];
      assert forall k' :: k' != k ==> Lookup(r, k') == Lookup(d, k') by {
        forall k' | k' != k ensures Lookup(r, k') == Lookup(d, k') {
          IndexOfKeyAppend(d, (k, v), k');
          var j := IndexOfKey(d, k');
          if j < |d| {
            assert r[j] == d[j];
          }
        }
      }
      IndexOfKeyAppend(d, (k, v), k);
      r
  }

  /** Where an assignment puts its entry: in place of the old one, or at the end. */
  lemma PutShape<K(!new), V>(d: Dict<K, V>, k: K, v: V)
    ensures Lookup(d, k).None? ==> Put(d, k, v) == d + [(k, v)]
    ensures Lookup(d, k).Some? ==> IndexOfKey(d, k) < |d| && Put(d, k, v) == d[IndexOfKey(d, k) := (k, v)]
  {
  }

  /** An assignment keeps every key at its position. */
  lemma PutKeepsOrder<K(!new), V>(d: Dict<K, V>, k: K, v: V)
    ensures |Put(d, k, v)| >= |d| && forall i :: 0 <= i < |d| ==> Put(d, k, v)[i].0 == d[i].0
  {
  }

  /** An assignment never repeats a key. */
  lemma PutUniqueKeys<K(!new), V>(d: Dict<K, V>, k: K, v: V)
    requires UniqueKeys(d)
    ensures UniqueKeys(Put(d, k, v))
  {
    var i := IndexOfKey(d, k);
    if i == |d| {
      forall j | 0 <= j < |d| ensures d[j].0 != k {
        IndexOfKeyFirst(d, k, j);
      }
    }
  }

  /** The keys of a dict, as a set. */
  function KeySet<K, V>(d: Dict<K, V>): set<K> {
    set i | 0 <= i < |d| :: d[i].0
  }

  lemma KeySetPresent<K(!new), V>(d: Dict<K, V>)
    ensures forall k :: k in KeySet(d) <==> Lookup(d, k).Some?
  {
    forall k ensures k in KeySet(d) <==> Lookup(d, k).Some? {
      LookupPresent(d, k);
    }
  }

  /** The plain (unordered) map a dict stands for. */
  function ToMap<K(==,!new), V>(d: Dict<K, V>): (m: map<K, V>)
    ensures forall k :: k in m <==> Lookup(d, k).Some?
    ensures forall k :: k in m ==> m[k] == Lookup(d, k).value
  {
    KeySetPresent(d);
    map k | k in KeySet(d) :: Lookup(d, k).value
  }

  /** Assigning into the ordered dict is a map update of the map it stands for. */
  lemma PutIsMapUpdate<K(!new), V>(d: Dict<K, V>, k: K, v: V)
    ensures ToMap(Put(d, k, v)) == ToMap(d)[k := v]
  {
    var l, r := ToMap(Put(d, k, v)), ToMap(d)[k := v];
    assert forall x :: x in l <==> x in r;
  }

  /** `sum(len(inner) for inner in d.values())` for a dict of dicts. */
  function TotalEntries<K, K2, V>(d: Dict<K, Dict<K2, V>>): nat {
    if d == [] then 0 else TotalEntries(d[..|d| - 1]) + |d[|d| - 1].1|
  }

  /** Replacing one inner dict changes the total by the difference in its size. */
  lemma {:induction false} TotalEntriesUpdate<K, K2, V>(d: Dict<K, Dict<K2, V>>, i: nat, k: K, e: Dict<K2, V>)
    requires i < |d|
    ensures TotalEntries(d[i := (k, e)]) == TotalEntries(d) - |d[i].1| + |e|
    decreases |d|
  {
    var d' := d[i := (k, e)];
    var n := |d| - 1;
    if i < n {
      assert d'[..n] == d[..n][i := (k, e)];
      TotalEntriesUpdate(d[..n], i, k, e);
    } else {
      assert d'[..n] == d[..n];
    }
  }
}
