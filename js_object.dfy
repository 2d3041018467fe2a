/**
 * Plain JavaScript objects used as records: string keys in insertion order
 * and a value per key. Reading a missing key gives `undefined` (`Nil`).
 */
module JsObject {
  import opened Js
  import opened Seqs

  datatype Record = Record(keys: seq<string>, fields: map<string, Value>)

  /** Keys are listed once each, and exactly the keys that have a value. */
  ghost predicate Valid(r: Record) {
    (forall i, j :: 0 <= i < j < |r.keys| ==> r.keys[i] != r.keys[j])
    && (forall k :: k in r.fields <==> k in r.keys)
  }

  const Empty := Record([], map[])

  predicate Has(r: Record, k: string) {
    k in r.fields
  }

  /** `r[k]`. */
  function Get(r: Record, k: string): (v: Value)
    ensures !Has(r, k) ==> v == Nil
    ensures Has(r, k) ==> v == r.fields[k]
  {
    if k in r.fields then r.fields[k] else Nil
  }

  /** `r[k] = v`: a new key goes to the end, an existing key keeps its place. */
  function Put(r: Record, k: string, v: Value): (r': Record)
    requires Valid(r)
    ensures Valid(r')
    ensures Get(r', k) == v
    ensures forall k' :: k' != k ==> Get(r', k') == Get(r, k')
    ensures r'.keys == if k in r.keys then r.keys else r.keys + [k]
  {
    if k in r.fields then Record(r.keys, r.fields[k := v])
    else Record(r.keys + [k], r.fields[k := v])
  }

  function Names(entries: seq<(string, Value)>): (names: seq<string>)
    ensures |names| == |entries|
    ensures forall i :: 0 <= i < |entries| ==> names[i] == entries[i].0
  {
    if entries == [] then [] else Names(entries[..|entries| - 1]) + [entries[|entries| - 1].0]
  }

  /** The entry that decides key `entries[i].0`: no later entry has the same key. */
  predicate IsLastFor(entries: seq<(string, Value)>, i: int)
    requires 0 <= i < |entries|
  {
    forall j :: i < j < |entries| ==> entries[j].0 != entries[i].0
  }

  /** `Object.fromEntries(entries)`: each entry is assigned in turn. */
  function FromEntries(entries: seq<(string, Value)>): (r: Record)
    ensures Valid(r)
  {
    if entries == [] then Empty
    else
      var last := entries[|entries| - 1];
      Put(FromEntries(entries[..|entries| - 1]), last.0, last.1)
  }

  /** Keys come out in order of first occurrence, and every key present came from an entry. */
  lemma {:induction false} FromEntriesKeys(entries: seq<(string, Value)>)
    ensures FromEntries(entries).keys == FirstOccurrences(Names(entries))
    ensures forall k :: Has(FromEntries(entries), k) <==> k in Names(entries)
  {
    if entries != [] {
      var init := entries[..|entries| - 1];
      FromEntriesKeys(init);
      assert Names(entries) == Names(init) + [entries[|entries| - 1].0];
    }
  }

  /** The value of a repeated key is the one its last entry gives. */
  lemma {:induction false} FromEntriesLastWins(entries: seq<(string, Value)>, i: int)
    requires 0 <= i < |entries| && IsLastFor(entries, i)
    ensures Get(FromEntries(entries), entries[i].0) == entries[i].1
  {
    var init := entries[..|entries| - 1];
    if i < |entries| - 1 {
      assert IsLastFor(init, i);
      FromEntriesLastWins(init, i);
    }
  }
}
