/**
  Insertion-ordered dictionaries with string keys: the shape of a JavaScript
  plain object used as a record (`Record<string, V>`) and of a `Map<string, V>`.
  Enumeration (`Object.entries`, `Map.prototype.values`) follows the order of
  the entries; assigning to a key that is present keeps its position, and
  assigning to a new key appends it.
*/
module Dictionaries {
  import opened Wrappers

  datatype Entry<V> = Entry(key: string, value: V)

  type Dict<V> = seq<Entry<V>>

  /** The keys of `d` (`Object.keys`, as a set). */
  function Keys<V>(d: Dict<V>): set<string>
  {
    if d == [] then {} else {d[0].key} + Keys(d[1..])
  }

  /** No key is stored twice; every object and map the program builds has this shape. */
  predicate DistinctKeys<V>(d: Dict<V>)
  {
    d == [] || (d[0].key !in Keys(d[1..]) && DistinctKeys(d[1..]))
  }

  /** `d[k]`, or `None` for a missing key (`undefined`). */
  function Get<V>(d: Dict<V>, k: string): (r: Option<V>)
    ensures r.Some? <==> k in Keys(d)
  {
    if d == [] then None
    else if d[0].key == k then Some(d[0].value)
    else Get(d[1..], k)
  }

  /** `d[k] = v`: an existing key keeps its place, a new key goes last. */
  function Put<V>(d: Dict<V>, k: string, v: V): (r: Dict<V>)
    ensures Keys(r) == Keys(d) + {k}
    ensures Get(r, k) == Some(v)
    ensures forall k' :: k' != k ==> Get(r, k') == Get(d, k')
    ensures |r| == if k in Keys(d) then |d| else |d| + 1
    ensures DistinctKeys(d) ==> DistinctKeys(r)
  {
    if d == [] then [Entry(k, v)]
    else if d[0].key == k then [Entry(k, v)] + d[1..]
    else [d[0]] + Put(d[1..], k, v)
  }

  /** A key is in `Keys(d)` exactly when some entry carries it. */
  lemma {:induction false} KeysAt<V>(d: Dict<V>, k: string)
    ensures k in Keys(d) <==> exists i :: 0 <= i < |d| && d[i].key == k
  {
    if d != [] {
      KeysAt(d[1..], k);
      if k in Keys(d[1..]) {
        var i :| 0 <= i < |d[1..]| && d[1..][i].key == k;
        assert d[i + 1].key == k;
      }
      if exists i :: 0 <= i < |d| && d[i].key == k {
        var i :| 0 <= i < |d| && d[i].key == k;
        if i > 0 { assert d[1..][i - 1].key == k; }
      }
    }
  }

  /** The keys of a concatenation. */
  lemma {:induction false} KeysAppend<V>(a: Dict<V>, b: Dict<V>)
    ensures Keys(a + b) == Keys(a) + Keys(b)
  {
    if a == [] {
      assert a + b == b;
    } else {
      assert (a + b)[1..] == a[1..] + b;
      KeysAppend(a[1..], b);
    }
  }
  /** What `Get` finds is the value of an entry with that key. */
  lemma {:induction false} GetFound<V>(d: Dict<V>, k: string)
    ensures Get(d, k).Some? ==> exists i :: 0 <= i < |d| && d[i].key == k && d[i].value == Get(d, k).value
  {
    if d != [] && d[0].key != k {
      GetFound(d[1..], k);
      if Get(d[1..], k).Some? {
        var i :| 0 <= i < |d[1..]| && d[1..][i].key == k && d[1..][i].value == Get(d[1..], k).value;
        assert d[i + 1] == d[1..][i];
      }
    }
  }

  /** Without repeated keys, two different entries have different keys. */
  lemma {:induction false} DistinctKeysAt<V>(d: Dict<V>, i: int, j: int)
    requires DistinctKeys(d) && 0 <= i < j < |d|
    ensures d[i].key != d[j].key
  {
    if i == 0 {
      KeysAt(d[1..], d[j].key);
      assert d[1..][j - 1] == d[j];
    } else {
      DistinctKeysAt(d[1..], i - 1, j - 1);
    }
  }

  /** Without repeated keys, `Get` finds every entry. */
  lemma {:induction false} GetAt<V>(d: Dict<V>, i: int)
    requires DistinctKeys(d) && 0 <= i < |d|
    ensures Get(d, d[i].key) == Some(d[i].value)
  {
    if i > 0 {
      DistinctKeysAt(d, 0, i);
      GetAt(d[1..], i - 1);
      assert d[1..][i - 1] == d[i];
    }
  }

  /** Every entry after `Put(d, k, v)` is an old entry or the new one. */
  lemma {:induction false} PutEntries<V>(d: Dict<V>, k: string, v: V)
    ensures forall e :: e in Put(d, k, v) ==> e in d || e == Entry(k, v)
  {
    if d != [] && d[0].key != k {
      PutEntries(d[1..], k, v);
      assert forall e :: e in d[1..] ==> e in d;
    }
  }
}
