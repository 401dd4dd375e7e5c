/**
 * Java's SequencedMap<String, V> (a LinkedHashMap) as an association list in insertion order.
 * `put` replaces the value of a present key in place and appends a new key at the end.
 */
module OrderedMaps {
  import opened Wrappers

  type OMap<V> = seq<(string, V)>

  function Keys<V>(m: OMap<V>): (r: seq<string>)
    ensures |r| == |m|
  {
    seq(|m|, i requires 0 <= i < |m| => m[i].0)
  }

  /** No key occurs twice: true of every map Java builds. */
  ghost predicate DistinctKeys<V>(m: OMap<V>)
  {
    forall i, j :: 0 <= i < j < |m| ==> m[i].0 != m[j].0
  }

  /** The position of the first occurrence of `k` in `ks`. */
  function IndexOf(ks: seq<string>, k: string): (r: Option<nat>)
    ensures r.None? <==> k !in ks
    ensures r.Some? ==> r.value < |ks| && ks[r.value] == k && k !in ks[..r.value]
  {
    if ks == [] then None
    else if ks[0] == k then Some(0)
    else
      match IndexOf(ks[1..], k)
      case None => None
      case Some(i) =>
        assert ks[..i + 1] == [ks[0]] + ks[1..][..i];
        Some(i + 1)
  }

  /** The first occurrence is the only position that is an occurrence with none before it. */
  lemma IndexOfUnique(ks: seq<string>, k: string, i: nat)
    requires i < |ks| && ks[i] == k && k !in ks[..i]
    ensures IndexOf(ks, k) == Some(i)
  {
  }

  /** `map.get(k)`: the value stored under `k`, or null. */
  function Get<V>(m: OMap<V>, k: string): (r: Option<V>)
    ensures r.None? <==> k !in Keys(m)
    ensures r.Some? ==> (k, r.value) in m
  {
    match IndexOf(Keys(m), k)
    case None => None
    case Some(i) => Some(m[i].1)
  }

  /** `map.put(k, v)` on a LinkedHashMap. */
  function Put<V>(m: OMap<V>, k: string, v: V): (r: OMap<V>)
    ensures Keys(r) == if k in Keys(m) then Keys(m) else Keys(m) + [k]
    ensures Get(r, k) == Some(v)
    ensures forall k' :: k' != k ==> Get(r, k') == Get(m, k')
  {
    match IndexOf(Keys(m), k)
    case Some(i) =>
      var r := m[i := (k, v)];
      assert Keys(r) == Keys(m);
      r
    case None =>
      var r := m + [(k, v)];
      assert Keys(r) == Keys(m) + [k];
      IndexOfUnique(Keys(r), k, |m|);
      assert forall k' :: k' != k ==> Get(r, k') == Get(m, k') by {
        forall k' | k' != k
          ensures Get(r, k') == Get(m, k')
        {
          var o := IndexOf(Keys(m), k');
          if o.Some? {
            assert Keys(r)[..o.value] == Keys(m)[..o.value];
            IndexOfUnique(Keys(r), k', o.value);
          }
        }
      }
      r
  }

  /** Putting a key the map does not hold appends the entry. */
  lemma PutAbsent<V>(m: OMap<V>, k: string, v: V)
    requires k !in Keys(m)
    ensures Put(m, k, v) == m + [(k, v)]
  {
  }

  /** Put keeps a map free of repeated keys. */
  lemma PutDistinct<V>(m: OMap<V>, k: string, v: V)
    requires DistinctKeys(m)
    ensures DistinctKeys(Put(m, k, v))
  {
    var r := Put(m, k, v);
    forall i, j | 0 <= i < j < |r|
      ensures r[i].0 != r[j].0
    {
      assert Keys(r)[i] == r[i].0 && Keys(r)[j] == r[j].0;
      if j < |m| {
        assert Keys(m)[i] == m[i].0 && Keys(m)[j] == m[j].0;
      } else {
        assert Keys(m)[i] == m[i].0;
      }
    }
  }

  /** `map.putAll(n)`: every entry of `n`, in order, put into `m`. */
  function PutAll<V>(m: OMap<V>, n: OMap<V>): OMap<V>
    decreases |n|
  {
    if n == [] then m
    else
      var last := n[|n| - 1];
      Put(PutAll(m, n[..|n| - 1]), last.0, last.1)
  }

  /** The keys of `ks` that are not in `seen`, in their order in `ks`. */
  function NewKeys(ks: seq<string>, seen: seq<string>): (r: seq<string>)
    ensures forall k :: k in r <==> k in ks && k !in seen
    decreases |ks|
  {
    if ks == [] then []
    else
      var last := ks[|ks| - 1];
      assert ks == ks[..|ks| - 1] + [last];
      NewKeys(ks[..|ks| - 1], seen) + (if last in seen then [] else [last])
  }

  /** `HashMap` view of an ordered map: the same key/value pairs, order forgotten. */
  function ToMap<V>(m: OMap<V>): (r: map<string, V>)
    ensures forall k :: k in r <==> k in Keys(m)
    ensures forall k :: k in r ==> Get(m, k) == Some(r[k])
  {
    if m == [] then map[]
    else
      var rest := ToMap(m[1..]);
      assert Keys(m) == [m[0].0] + Keys(m[1..]);
      assert Keys(m)[1..] == Keys(m[1..]);
      rest[m[0].0 := m[0].1]
  }

  lemma KeysAppend<V>(a: OMap<V>, b: OMap<V>)
    ensures Keys(a + b) == Keys(a) + Keys(b)
  {
  }

  /** Looking a key up in `a + b` finds it in `a` when it is there, and in `b` otherwise. */
  lemma GetAppend<V>(a: OMap<V>, b: OMap<V>, k: string)
    ensures Get(a + b, k) == if k in Keys(a) then Get(a, k) else Get(b, k)
  {
    KeysAppend(a, b);
    var ks := Keys(a + b);
    match IndexOf(Keys(a), k)
    case Some(i) =>
      assert ks[..i] == Keys(a)[..i];
      IndexOfUnique(ks, k, i);
    case None =>
      match IndexOf(Keys(b), k)
      case Some(i) =>
        assert ks[..|a| + i] == Keys(a) + Keys(b)[..i];
        IndexOfUnique(ks, k, |a| + i);
        assert (a + b)[|a| + i] == b[i];
      case None =>
  }

  /** In a map without repeated keys, looking up the key at position `i` gives the value at position `i`. */
  lemma GetAt<V>(m: OMap<V>, i: nat)
    requires DistinctKeys(m) && i < |m|
    ensures Get(m, m[i].0) == Some(m[i].1)
  {
    var ks := Keys(m);
    assert ks[i] == m[i].0;
    assert m[i].0 !in ks[..i] by {
      forall j | 0 <= j < i ensures ks[..i][j] != m[i].0 {
        assert ks[j] == m[j].0;
      }
    }
    IndexOfUnique(ks, m[i].0, i);
  }

  /**
   * putAll on a LinkedHashMap: the old keys keep their order and the keys of `n` that were not present
   * follow, in their order in `n`.
   */
  lemma {:induction false} PutAllKeys<V>(m: OMap<V>, n: OMap<V>)
    requires DistinctKeys(n)
    ensures Keys(PutAll(m, n)) == Keys(m) + NewKeys(Keys(n), Keys(m))
    decreases |n|
  {
    if n != [] {
      var init, last := n[..|n| - 1], n[|n| - 1];
      DistinctKeysInit(n);
      PutAllKeys(m, init);
      LastKeyIsNew(n);
      PutAllKeysStep(m, n);
    }
  }

  /** The last put of `putAll`, given the keys after the others. */
  lemma PutAllKeysStep<V>(m: OMap<V>, n: OMap<V>)
    requires n != [] && n[|n| - 1].0 !in Keys(n[..|n| - 1])
    requires Keys(PutAll(m, n[..|n| - 1])) == Keys(m) + NewKeys(Keys(n[..|n| - 1]), Keys(m))
    ensures Keys(PutAll(m, n)) == Keys(m) + NewKeys(Keys(n), Keys(m))
  {
    var init, last := n[..|n| - 1], n[|n| - 1];
    var grow := if last.0 in Keys(m) then [] else [last.0];
    calc {
      Keys(PutAll(m, n));
      Keys(Put(PutAll(m, init), last.0, last.1));
      { PutKeysStep(PutAll(m, init), last.0, last.1, Keys(m), Keys(init)); }
      Keys(m) + (NewKeys(Keys(init), Keys(m)) + grow);
      { NewKeysSnoc(Keys(init), last.0, Keys(m)); }
      Keys(m) + NewKeys(Keys(init) + [last.0], Keys(m));
      { KeysInitLast(n); }
      Keys(m) + NewKeys(Keys(n), Keys(m));
    }
  }

  /** One put after the old keys and the new keys of `ks`: a key outside `ks` that is new goes at the end. */
  lemma PutKeysStep<V>(before: OMap<V>, k: string, v: V, prior: seq<string>, ks: seq<string>)
    requires Keys(before) == prior + NewKeys(ks, prior) && k !in ks
    ensures Keys(Put(before, k, v)) == prior + (NewKeys(ks, prior) + (if k in prior then [] else [k]))
  {
    var grow := if k in prior then [] else [k];
    assert prior + NewKeys(ks, prior) + grow == prior + (NewKeys(ks, prior) + grow);
  }

  lemma KeysInitLast<V>(n: OMap<V>)
    requires n != []
    ensures Keys(n) == Keys(n[..|n| - 1]) + [n[|n| - 1].0]
  {
  }

  lemma DistinctKeysInit<V>(n: OMap<V>)
    requires DistinctKeys(n) && n != []
    ensures DistinctKeys(n[..|n| - 1])
  {
  }

  /** In a map without repeated keys the last key does not occur before it. */
  lemma LastKeyIsNew<V>(n: OMap<V>)
    requires DistinctKeys(n) && n != []
    ensures n[|n| - 1].0 !in Keys(n[..|n| - 1])
  {
    var init := n[..|n| - 1];
    forall j | 0 <= j < |init| ensures Keys(init)[j] != n[|n| - 1].0 {
      assert n[j] == init[j];
    }
  }

  lemma NewKeysSnoc(ks: seq<string>, k: string, seen: seq<string>)
    ensures NewKeys(ks + [k], seen) == NewKeys(ks, seen) + (if k in seen then [] else [k])
  {
    assert (ks + [k])[..|ks|] == ks;
  }

  /** putAll on a LinkedHashMap: the new value wins on a clash, and keys only in the old map keep their values. */
  lemma {:induction false} PutAllGet<V>(m: OMap<V>, n: OMap<V>, k: string)
    requires DistinctKeys(n)
    ensures Get(PutAll(m, n), k) == if k in Keys(n) then Get(n, k) else Get(m, k)
    decreases |n|
  {
    if n != [] {
      var init, last := n[..|n| - 1], n[|n| - 1];
      assert n == init + [last];
      assert DistinctKeys(init);
      PutAllGet(m, init, k);
      KeysAppend(init, [last]);
      GetAppend(init, [last], k);
      if k == last.0 {
        LastKeyIsNew(n);
      }
    }
  }

  /** putAll keeps a map free of repeated keys. */
  lemma {:induction false} PutAllDistinct<V>(m: OMap<V>, n: OMap<V>)
    requires DistinctKeys(m)
    ensures DistinctKeys(PutAll(m, n))
    decreases |n|
  {
    if n != [] {
      PutAllDistinct(m, n[..|n| - 1]);
      PutDistinct(PutAll(m, n[..|n| - 1]), n[|n| - 1].0, n[|n| - 1].1);
    }
  }
}
