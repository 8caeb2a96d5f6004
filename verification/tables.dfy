/**
 * Python dictionaries as ordered lists of (key, value) pairs. A dict
 * literal iterates in declaration order, and a lookup finds the entry of
 * the first key that qualifies.
 */
module Tables {

  type Table<V> = seq<(string, V)>

  /** No key before position `i` equals `k`. */
  predicate KeyAbsentBefore<V>(t: Table<V>, k: string, i: int)
    requires 0 <= i <= |t|
  {
    forall j :: 0 <= j < i ==> t[j].0 != k
  }

  /** Position of the first entry at or after `from` whose key is `k`; `|t|` when there is none. */
  function IndexFrom<V>(t: Table<V>, k: string, from: nat): (i: nat)
    requires from <= |t|
    ensures from <= i <= |t|
    ensures i < |t| ==> t[i].0 == k
    ensures forall j :: from <= j < i ==> t[j].0 != k
    decreases |t| - from
  {
    if from == |t| then |t|
    else if t[from].0 == k then from
    else IndexFrom(t, k, from + 1)
  }

  /** Position of the first entry whose key is `k`; `|t|` when there is none. */
  function KeyIndex<V>(t: Table<V>, k: string): (i: nat)
    ensures i <= |t|
    ensures i < |t| ==> t[i].0 == k
    ensures KeyAbsentBefore(t, k, i)
  {
    IndexFrom(t, k, 0)
  }

  /** `k in t`. */
  predicate HasKey<V>(t: Table<V>, k: string) {
    KeyIndex(t, k) < |t|
  }

  /** `t.get(k, default)`: the value of the first entry whose key is `k`. */
  function Get<V>(t: Table<V>, k: string, default: V): V {
    var i := KeyIndex(t, k);
    if i < |t| then t[i].1 else default
  }

  /** `HasKey` agrees with the positional reading of `k in t`. */
  lemma HasKeyIff<V>(t: Table<V>, k: string)
    ensures HasKey(t, k) <==> exists i :: 0 <= i < |t| && t[i].0 == k
  {
    if exists i :: 0 <= i < |t| && t[i].0 == k {
      var i :| 0 <= i < |t| && t[i].0 == k;
      assert KeyIndex(t, k) <= i;
    }
  }

  /** A lookup returns the value of the first entry carrying the key. */
  lemma GetFirst<V>(t: Table<V>, k: string, default: V, i: int)
    requires 0 <= i < |t| && t[i].0 == k && KeyAbsentBefore(t, k, i)
    ensures HasKey(t, k) && Get(t, k, default) == t[i].1
  {
    assert KeyIndex(t, k) == i;
  }

  /** A lookup of a missing key returns the default. */
  lemma GetMissing<V>(t: Table<V>, k: string, default: V)
    requires !HasKey(t, k)
    ensures Get(t, k, default) == default
  {
  }

  /** A lookup of a present key returns the value of its first entry. */
  lemma GetPresent<V>(t: Table<V>, k: string, default: V)
    requires HasKey(t, k)
    ensures exists i :: 0 <= i < |t| && t[i] == (k, Get(t, k, default)) && KeyAbsentBefore(t, k, i)
  {
    var i := KeyIndex(t, k);
    assert t[i] == (k, Get(t, k, default));
  }
}
