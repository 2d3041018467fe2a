/**
 * `groupBy` and `toArray`: items are gathered into per-key buckets of an
 * insertion-ordered map, items without a key are dropped, and the map is
 * listed as `{key, values}` entries.
 */
module Group {
  import opened Js
  import opened Seqs

  /** A `Map` from keys to buckets: the keys in insertion order and the bucket of each. */
  datatype Grouping<K, T> = Grouping(keys: seq<K>, buckets: map<K, seq<T>>)

  /** Each key is listed once, and exactly the listed keys have a bucket. */
  predicate Valid<K, T>(g: Grouping<K, T>) {
    (forall i, j :: 0 <= i < j < |g.keys| ==> g.keys[i] != g.keys[j])
    && (forall k :: k in g.buckets ==> k in g.keys)
    && (forall k :: k in g.keys ==> k in g.buckets)
  }

  /** `new Map()`. */
  function NoGroups<K, T>(): Grouping<K, T> {
    Grouping([], map[])
  }

  /** One step of the loop: push onto the key's bucket, or start a new bucket at the end. */
  function Add<K, T>(g: Grouping<K, T>, k: K, x: T): Grouping<K, T> {
    if k in g.buckets then Grouping(g.keys, g.buckets[k := g.buckets[k] + [x]])
    else Grouping(g.keys + [k], g.buckets[k := [x]])
  }

  /** The map `groupBy(arr, keyFn)` returns; a key of `None` is `null` or `undefined`. */
  function Grouped<K, T>(arr: seq<T>, keyFn: T -> Option<K>): Grouping<K, T> {
    if arr == [] then NoGroups()
    else
      var g := Grouped(arr[..|arr| - 1], keyFn);
      var k := keyFn(arr[|arr| - 1]);
      if k.None? then g else Add(g, k.value, arr[|arr| - 1])
  }

  /** `groupBy(arr, keyFn)`. */
  method GroupBy<K, T>(arr: seq<T>, keyFn: T -> Option<K>) returns (g: Grouping<K, T>)
    ensures g == Grouped(arr, keyFn)
  {
    g := NoGroups();
    for i := 0 to |arr|
      invariant g == Grouped(arr[..i], keyFn)
    {
      assert arr[..i + 1][..i] == arr[..i];
      var k := keyFn(arr[i]);
      if k.None? {
        continue;
      }
      if k.value in g.buckets {
        g := Grouping(g.keys, g.buckets[k.value := g.buckets[k.value] + [arr[i]]]);
      } else {
        g := Grouping(g.keys + [k.value], g.buckets[k.value := [arr[i]]]);
      }
    }
    assert arr[..|arr|] == arr;
  }

  /** The keys of the items that have one, in input order. */
  function KeysOf<K, T>(arr: seq<T>, keyFn: T -> Option<K>): seq<K> {
    if arr == [] then []
    else
      var k := keyFn(arr[|arr| - 1]);
      KeysOf(arr[..|arr| - 1], keyFn) + (if k.Some? then [k.value] else [])
  }

  /** The items that belong in the bucket of `k`. */
  function HasKey<K(==), T>(keyFn: T -> Option<K>, k: K): T -> bool {
    x => keyFn(x) == Some(k)
  }

  /** The items that are not dropped. */
  function IsKept<K, T>(keyFn: T -> Option<K>): T -> bool {
    x => keyFn(x).Some?
  }

  /** The map is well formed, and its keys are the item keys in order of first occurrence. */
  lemma {:induction false} GroupedKeys<K, T>(arr: seq<T>, keyFn: T -> Option<K>)
    ensures Valid(Grouped(arr, keyFn))
    ensures Grouped(arr, keyFn).keys == FirstOccurrences(KeysOf(arr, keyFn))
  {
    if arr != [] {
      var init := arr[..|arr| - 1];
      GroupedKeys(init, keyFn);
      var ks := KeysOf(init, keyFn);
      var k := keyFn(arr[|arr| - 1]);
      if k.Some? {
        assert KeysOf(arr, keyFn) == ks + [k.value];
        assert (ks + [k.value])[..|ks|] == ks;
        assert k.value in Grouped(init, keyFn).buckets <==> k.value in FirstOccurrences(ks);
      } else {
        assert KeysOf(arr, keyFn) == ks;
      }
    }
  }

  /**
   * The bucket of each key holds exactly the items with that key, in input
   * order, and a key has a bucket only when some item has it.
   */
  lemma {:induction false} GroupedBuckets<K, T>(arr: seq<T>, keyFn: T -> Option<K>, k: K)
    ensures k in Grouped(arr, keyFn).buckets ==> Grouped(arr, keyFn).buckets[k] == Filter(arr, HasKey(keyFn, k))
    ensures k !in Grouped(arr, keyFn).buckets ==> Filter(arr, HasKey(keyFn, k)) == []
  {
    if arr != [] {
      GroupedBuckets(arr[..|arr| - 1], keyFn, k);
    }
  }

  /** No bucket is empty. */
  lemma {:induction false} NoEmptyBucket<K, T>(arr: seq<T>, keyFn: T -> Option<K>)
    ensures forall k :: k in Grouped(arr, keyFn).buckets ==> Grouped(arr, keyFn).buckets[k] != []
  {
    if arr != [] {
      NoEmptyBucket(arr[..|arr| - 1], keyFn);
    }
  }

  /** An item lands in the bucket of its key; an item without a key lands nowhere. */
  lemma ItemInItsBucket<K, T>(arr: seq<T>, keyFn: T -> Option<K>, i: nat)
    requires i < |arr|
    ensures keyFn(arr[i]).Some? ==>
      keyFn(arr[i]).value in Grouped(arr, keyFn).buckets && arr[i] in Grouped(arr, keyFn).buckets[keyFn(arr[i]).value]
    ensures keyFn(arr[i]).None? ==> forall k :: k in Grouped(arr, keyFn).buckets ==> arr[i] !in Grouped(arr, keyFn).buckets[k]
  {
    if keyFn(arr[i]).Some? {
      var k := keyFn(arr[i]).value;
      GroupedBuckets(arr, keyFn, k);
      FilterMembers(arr, HasKey(keyFn, k));
    } else {
      forall k | k in Grouped(arr, keyFn).buckets ensures arr[i] !in Grouped(arr, keyFn).buckets[k] {
        GroupedBuckets(arr, keyFn, k);
        FilterMembers(arr, HasKey(keyFn, k));
      }
    }
  }

  /** The sizes of the buckets of `keys`, added up. */
  function Total<K, T>(keys: seq<K>, buckets: map<K, seq<T>>): nat
    requires forall k :: k in keys ==> k in buckets
  {
    if keys == [] then 0 else Total(keys[..|keys| - 1], buckets) + |buckets[keys[|keys| - 1]]|
  }

  lemma {:induction false} TotalOther<K, T>(keys: seq<K>, buckets: map<K, seq<T>>, k: K, b: seq<T>)
    requires forall k' :: k' in keys ==> k' in buckets
    requires k !in keys
    ensures Total(keys, buckets[k := b]) == Total(keys, buckets)
  {
    if keys != [] {
      TotalOther(keys[..|keys| - 1], buckets, k, b);
    }
  }

  lemma {:induction false} TotalGrow<K, T>(keys: seq<K>, buckets: map<K, seq<T>>, k: K, x: T)
    requires forall k' :: k' in keys ==> k' in buckets
    requires forall i, j :: 0 <= i < j < |keys| ==> keys[i] != keys[j]
    requires k in keys
    ensures Total(keys, buckets[k := buckets[k] + [x]]) == Total(keys, buckets) + 1
  {
    var init, last := keys[..|keys| - 1], keys[|keys| - 1];
    if last == k {
      assert k !in init;
      TotalOther(init, buckets, k, buckets[k] + [x]);
    } else {
      TotalGrow(init, buckets, k, x);
    }
  }

  /** Every kept item is in exactly one bucket: the bucket sizes add up to the number of kept items. */
  lemma {:induction false} BucketSizesAddUp<K, T>(arr: seq<T>, keyFn: T -> Option<K>)
    ensures Valid(Grouped(arr, keyFn))
    ensures Total(Grouped(arr, keyFn).keys, Grouped(arr, keyFn).buckets) == Count(arr, IsKept(keyFn))
  {
    GroupedKeys(arr, keyFn);
    if arr != [] {
      var init, x := arr[..|arr| - 1], arr[|arr| - 1];
      var g, k := Grouped(init, keyFn), keyFn(x);
      BucketSizesAddUp(init, keyFn);
      TotalStep(g, k, x);
      assert Grouped(arr, keyFn) == if k.None? then g else Add(g, k.value, x);
      assert Count(arr, IsKept(keyFn)) == Count(init, IsKept(keyFn)) + (if k.Some? then 1 else 0);
    }
  }

  /** One step of the loop adds one item to the total when it has a key, and none otherwise. */
  lemma TotalStep<K, T>(g: Grouping<K, T>, k: Option<K>, x: T)
    requires Valid(g)
    ensures var g' := if k.None? then g else Add(g, k.value, x);
      (forall k' :: k' in g'.keys ==> k' in g'.buckets)
      && Total(g'.keys, g'.buckets) == Total(g.keys, g.buckets) + (if k.Some? then 1 else 0)
  {
    if k.Some? {
      if k.value in g.buckets {
        TotalGrow(g.keys, g.buckets, k.value, x);
      } else {
        var keys := g.keys + [k.value];
        TotalOther(g.keys, g.buckets, k.value, [x]);
        assert keys[..|keys| - 1] == g.keys;
      }
    }
  }

  datatype Entry<K, T> = Entry(key: K, values: seq<T>)

  /** `toArray(map)`: one `{key, values}` entry per key, in the map's order. */
  function ToArray<K, T>(g: Grouping<K, T>): (entries: seq<Entry<K, T>>)
    requires Valid(g)
    ensures |entries| == |g.keys|
    ensures forall i :: 0 <= i < |entries| ==> entries[i] == Entry(g.keys[i], g.buckets[g.keys[i]])
  {
    seq(|g.keys|, i requires 0 <= i < |g.keys| => Entry(g.keys[i], g.buckets[g.keys[i]]))
  }

  /**
   * Listing a grouping gives each key once, in order of first occurrence,
   * next to the items with that key in input order.
   */
  lemma GroupsListed<K, T>(arr: seq<T>, keyFn: T -> Option<K>, i: nat)
    requires Valid(Grouped(arr, keyFn)) && i < |ToArray(Grouped(arr, keyFn))|
    ensures |FirstOccurrences(KeysOf(arr, keyFn))| == |ToArray(Grouped(arr, keyFn))|
    ensures var e := ToArray(Grouped(arr, keyFn))[i];
      e.key == FirstOccurrences(KeysOf(arr, keyFn))[i] && e.values == Filter(arr, HasKey(keyFn, e.key)) && e.values != []
  {
    GroupedKeys(arr, keyFn);
    var k := Grouped(arr, keyFn).keys[i];
    GroupedBuckets(arr, keyFn, k);
    NoEmptyBucket(arr, keyFn);
  }
}
