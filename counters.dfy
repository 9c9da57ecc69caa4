/**
  Records of numbers (`Record<string, number>`): per-event counters and
  per-event amounts, and the two ways the program combines them, reading a
  missing key as 0 and adding one record into another key by key.
*/
module Counters {
  import opened Wrappers
  import opened Dictionaries

  /** `d[k] || 0`: the number stored under `k`, and 0 when there is none. */
  function Lookup(d: Dict<real>, k: string): real
  {
    match Get(d, k)
    case Some(v) => v
    case None => 0.0
  }

  /** `Object.values(d).reduce((sum, x) => sum + x, 0)`. */
  function Sum(d: Dict<real>): real
  {
    if d == [] then 0.0 else d[0].value + Sum(d[1..])
  }

  /** The sum of the values stored under `k`: `d[k]` itself once keys are distinct. */
  function KeySum(d: Dict<real>, k: string): real
  {
    if d == [] then 0.0
    else (if d[0].key == k then d[0].value else 0.0) + KeySum(d[1..], k)
  }

  lemma {:induction false} SumPut(d: Dict<real>, k: string, v: real)
    ensures Sum(Put(d, k, v)) == Sum(d) - Lookup(d, k) + v
  {
    if d != [] && d[0].key != k {
      SumPut(d[1..], k, v);
      assert Put(d, k, v)[1..] == Put(d[1..], k, v);
    }
  }

  lemma {:induction false} KeySumAbsent(d: Dict<real>, k: string)
    requires k !in Keys(d)
    ensures KeySum(d, k) == 0.0
  {
    if d != [] {
      KeySumAbsent(d[1..], k);
    }
  }

  /** In a record without repeated keys, the values under `k` are the one `d[k] || 0` reads. */
  lemma {:induction false} KeySumOfDistinct(d: Dict<real>, k: string)
    requires DistinctKeys(d)
    ensures KeySum(d, k) == Lookup(d, k)
  {
    if d != [] {
      KeySumOfDistinct(d[1..], k);
      if d[0].key == k {
        KeySumAbsent(d[1..], k);
      }
    }
  }

  /** `d[k] = (d[k] || 0) + x`. */
  function AddTo(d: Dict<real>, k: string, x: real): (r: Dict<real>)
    ensures Keys(r) == Keys(d) + {k}
    ensures Lookup(r, k) == Lookup(d, k) + x
    ensures forall k' :: k' != k ==> Lookup(r, k') == Lookup(d, k')
    ensures Sum(r) == Sum(d) + x
    ensures DistinctKeys(d) ==> DistinctKeys(r)
  {
    var v := Lookup(d, k) + x;
    SumPut(d, k, v);
    Put(d, k, v)
  }

  /**
    `for (const [k, x] of Object.entries(d)) acc[k] = (acc[k] || 0) + x`:
    every key of `d` is added into `acc`, in the order of `d`.
  */
  function MergeAdd(acc: Dict<real>, d: Dict<real>): (r: Dict<real>)
    ensures Keys(r) == Keys(acc) + Keys(d)
    ensures forall k :: Lookup(r, k) == Lookup(acc, k) + KeySum(d, k)
    ensures Sum(r) == Sum(acc) + Sum(d)
    ensures DistinctKeys(acc) ==> DistinctKeys(r)
    decreases d
  {
    if d == [] then acc
    else MergeAdd(AddTo(acc, d[0].key, d[0].value), d[1..])
  }

  /** The loop `MergeAdd` describes, adding the entries of `d` into `acc` one at a time. */
  method AddEntries(acc: Dict<real>, d: Dict<real>) returns (r: Dict<real>)
    ensures r == MergeAdd(acc, d)
  {
    r := acc;
    var j := 0;
    while j < |d|
      invariant 0 <= j <= |d|
      invariant MergeAdd(r, d[j..]) == MergeAdd(acc, d)
    {
      assert d[j..][1..] == d[j + 1..];
      r := AddTo(r, d[j].key, d[j].value);
      j := j + 1;
    }
  }

  /** The records of `ds` added key by key into an empty record, first to last. */
  function MergeAll(ds: seq<Dict<real>>): (r: Dict<real>)
    ensures Keys(r) == AllKeys(ds)
    ensures forall k :: Lookup(r, k) == KeyTotal(ds, k)
    ensures Sum(r) == GrandTotal(ds)
    ensures DistinctKeys(r)
  {
    if ds == [] then []
    else MergeAdd(MergeAll(ds[..|ds| - 1]), ds[|ds| - 1])
  }

  /** Every key that occurs in some record of `ds`. */
  function AllKeys(ds: seq<Dict<real>>): set<string>
  {
    if ds == [] then {} else AllKeys(ds[..|ds| - 1]) + Keys(ds[|ds| - 1])
  }

  /** The values under `k`, summed over all records of `ds`. */
  function KeyTotal(ds: seq<Dict<real>>, k: string): real
  {
    if ds == [] then 0.0 else KeyTotal(ds[..|ds| - 1], k) + KeySum(ds[|ds| - 1], k)
  }

  /** All values of all records of `ds`, summed. */
  function GrandTotal(ds: seq<Dict<real>>): real
  {
    if ds == [] then 0.0 else GrandTotal(ds[..|ds| - 1]) + Sum(ds[|ds| - 1])
  }

  /** `d[k] || 0`, summed over all records of `ds`. */
  function LookupTotal(ds: seq<Dict<real>>, k: string): real
  {
    if ds == [] then 0.0 else LookupTotal(ds[..|ds| - 1], k) + Lookup(ds[|ds| - 1], k)
  }

  /** Over records without repeated keys, the two per-key sums agree. */
  lemma {:induction false} KeyTotalOfDistinct(ds: seq<Dict<real>>, k: string)
    requires forall i :: 0 <= i < |ds| ==> DistinctKeys(ds[i])
    ensures KeyTotal(ds, k) == LookupTotal(ds, k)
  {
    if ds != [] {
      KeyTotalOfDistinct(ds[..|ds| - 1], k);
      KeySumOfDistinct(ds[|ds| - 1], k);
    }
  }
}
