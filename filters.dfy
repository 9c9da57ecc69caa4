/**
  The table filter and sort: case-insensitive substring search over chosen
  fields, and a sort of a copy by one field under a comparator that knows the
  computed fields of a referral code (`signups`, `totalConversions`), reads
  the `total` of an object value, and keeps missing values last.
*/
module Filters {
  import opened Wrappers
  import opened Dictionaries
  import opened Counters
  import opened Js
  import opened Sorting
  import opened Seqs
  import opened Text

  datatype Direction = Asc | Desc

  /** Which field the table is sorted by, and which way. */
  datatype SortConfig = SortConfig(key: string, direction: Direction)

  /** `toggleSortDirection(current)`: the other direction, so toggling twice gives back `current`. */
  function ToggleSortDirection(current: Direction): (r: Direction)
    ensures r != current
  {
    if current == Asc then Desc else Asc
  }

  /** `item[key]` is neither `null` nor `undefined`, and its lower-cased `String` contains `lowerSearch`. */
  predicate KeyMatches(item: Value, key: string, lowerSearch: string, host: Host)
  {
    !IsNullish(item) && !IsNullish(Prop(item, key)) && Contains(Lower(ToJsString(Prop(item, key), host)), lowerSearch)
  }

  /** `searchKeys.some(...)`: some search key's value matches. */
  predicate AnyKeyMatches(item: Value, searchKeys: seq<string>, lowerSearch: string, host: Host)
  {
    exists key :: key in searchKeys && KeyMatches(item, key, lowerSearch, host)
  }

  /**
    `filterItems(items, searchTerm, searchKeys)`. Reading a field of `null`
    or `undefined` throws, which can only happen once a non-blank term is
    matched against at least one key.
  */
  function FilterItems(items: seq<Value>, searchTerm: string, searchKeys: seq<string>, host: Host): (r: seq<Value>)
    requires IsBlank(searchTerm) || searchKeys == [] || forall x :: x in items ==> !IsNullish(x)
    ensures IsBlank(searchTerm) ==> r == items
    ensures !IsBlank(searchTerm) ==>
              forall x :: x in r <==> x in items && AnyKeyMatches(x, searchKeys, Lower(searchTerm), host)
    ensures !IsBlank(searchTerm) ==>
              forall x :: multiset(r)[x] == if AnyKeyMatches(x, searchKeys, Lower(searchTerm), host) then multiset(items)[x] else 0
    ensures SubsequenceOf(r, items)
  {
    if IsBlank(searchTerm) then
      assert SubsequenceOf(items, items) by { SubsequenceOfSelf(items); }
      items
    else
      var p := (x: Value) => AnyKeyMatches(x, searchKeys, Lower(searchTerm), host);
      FilterSubsequence(items, p);
      FilterMembers(items, p);
      FilterCount(items, p);
      Filter(items, p)
  }

  lemma {:induction false} SubsequenceOfSelf(s: seq<Value>)
    ensures SubsequenceOf(s, s)
  {
    if s != [] {
      SubsequenceOfSelf(s[1..]);
    }
  }

  /** With a non-blank term and no search keys, nothing is kept. */
  lemma NoKeysKeepNothing(items: seq<Value>, searchTerm: string, host: Host)
    requires !IsBlank(searchTerm)
    ensures FilterItems(items, searchTerm, [], host) == []
  {
    FilterNone(items, (x: Value) => AnyKeyMatches(x, [], Lower(searchTerm), host));
  }

  /** Whether the comparator takes its values from the computed fields of a referral code. */
  predicate IsVirtual(key: string)
  {
    key == "signups" || key == "totalConversions"
  }

  /** `"eventStats" in x`. */
  predicate HasStats(x: Value)
  {
    x.Obj? && "eventStats" in Keys(x.fields)
  }

  /** The numbers among some values, added up; a value that is not a number adds nothing. */
  function NumberSum(vs: seq<Value>): real
  {
    if vs == [] then 0.0 else (if vs[0].Num? then vs[0].n else 0.0) + NumberSum(vs[1..])
  }

  /** `Object.values(v)` for an object or an array; nothing for other values. */
  function ObjectValues(v: Value): seq<Value>
  {
    match v
    case Obj(fields) => seq(|fields|, i requires 0 <= i < |fields| => fields[i].value)
    case Arr(elems) => elems
    case _ => []
  }

  /**
    The value a computed field stands for: `eventStats?.signup ?? 0` for
    `signups`, and the sum of `Object.values(eventStats || {})` for
    `totalConversions`.
  */
  function VirtualValue(x: Value, key: string): Value
    requires x.Obj?
  {
    var stats := Prop(x, "eventStats");
    if key == "signups" then
      if IsNullish(stats) then Num(0.0)
      else if IsNullish(Prop(stats, "signup")) then Num(0.0)
      else Prop(stats, "signup")
    else
      Num(if Truthy(stats) then NumberSum(ObjectValues(stats)) else 0.0)
  }

  /** An object with a `total` field stands for that `total` (`earnings.total`). */
  function Unwrap(v: Value): Value
  {
    if v.Obj? && "total" in Keys(v.fields) then Prop(v, "total") else v
  }

  /** The comparator reads computed fields when the key names one and both items have `eventStats`. */
  predicate UsesVirtual(a: Value, b: Value, key: string)
  {
    IsVirtual(key) && HasStats(a) && HasStats(b)
  }

  /** The value `a` is compared by, on the left of the comparator. */
  function LeftValue(a: Value, b: Value, key: string): Value
    requires a.Obj?
  {
    if UsesVirtual(a, b, key) then VirtualValue(a, key) else Unwrap(Prop(a, key))
  }

  /** The value `b` is compared by, on the right of the comparator: its `total` is always read. */
  function RightValue(a: Value, b: Value, key: string): Value
    requires b.Obj?
  {
    Unwrap(if UsesVirtual(a, b, key) then VirtualValue(b, key) else Prop(b, key))
  }

  /** Two present values: numbers by difference, strings by `localeCompare`, anything else by its `String`. */
  function CompareValues(av: Value, bv: Value, host: Host): real
  {
    if av.Num? && bv.Num? then av.n - bv.n
    else if av.Str? && bv.Str? then host.localeCompare(av.s, bv.s) as real
    else host.localeCompare(ToJsString(av, host), ToJsString(bv, host)) as real
  }

  /** The comparator `sortItems` passes to `sort`. */
  function Compare(a: Value, b: Value, config: SortConfig, host: Host): real
    requires a.Obj? && b.Obj?
  {
    var av, bv := LeftValue(a, b, config.key), RightValue(a, b, config.key);
    if IsNullish(av) then 1.0
    else if IsNullish(bv) then -1.0
    else
      var comparison := CompareValues(av, bv, host);
      if config.direction == Asc then comparison else -comparison
  }

  /** `Compare` on the records the table holds; no other values reach it. */
  function Comparator(config: SortConfig, host: Host): (Value, Value) -> real
  {
    (a: Value, b: Value) => if a.Obj? && b.Obj? then Compare(a, b, config, host) else 0.0
  }

  /** `sortItems(items, sortConfig)`: the items themselves without a config, otherwise a sorted copy. */
  function SortItems(items: seq<Value>, sortConfig: Option<SortConfig>, host: Host): (r: seq<Value>)
    requires forall x :: x in items ==> x.Obj?
    ensures sortConfig.None? ==> r == items
    ensures multiset(r) == multiset(items)
  {
    if sortConfig.None? then items
    else
      SortPermutes(items, Comparator(sortConfig.value, host));
      Sort(items, Comparator(sortConfig.value, host))
  }

  /**
    Swapping the direction negates the comparison of two present values, and
    leaves the comparison alone when either value is missing.
  */
  lemma DescendingNegatesAscending(a: Value, b: Value, key: string, host: Host)
    requires a.Obj? && b.Obj?
    ensures !IsNullish(LeftValue(a, b, key)) && !IsNullish(RightValue(a, b, key)) ==>
              Compare(a, b, SortConfig(key, Desc), host) == -Compare(a, b, SortConfig(key, Asc), host)
    ensures IsNullish(LeftValue(a, b, key)) || IsNullish(RightValue(a, b, key)) ==>
              Compare(a, b, SortConfig(key, Desc), host) == Compare(a, b, SortConfig(key, Asc), host)
  {
  }

  /** The value of `key` for a plain field, `total` read: missing when `null` or `undefined`. */
  predicate Missing(x: Value, key: string)
  {
    x.Obj? && IsNullish(Unwrap(Prop(x, key)))
  }

  /**
    Sorting by a plain field, in either direction, puts every item whose value
    is missing after every item that has one.
  */
  lemma MissingValuesLast(items: seq<Value>, config: SortConfig, host: Host)
    requires forall x :: x in items ==> x.Obj?
    requires !IsVirtual(config.key)
    ensures Partitioned(SortItems(items, Some(config), host), x => Missing(x, config.key))
  {
    var cmp := Comparator(config, host);
    var p := (x: Value) => Missing(x, config.key);
    var dom := multiset(items);
    forall a, b | a in dom && b in dom && p(a) && !p(b)
      ensures cmp(a, b) > 0.0
    {
      assert a in items && b in items;
    }
    forall a, b | a in dom && b in dom && !p(a) && p(b)
      ensures cmp(a, b) <= 0.0
    {
      assert a in items && b in items;
    }
    SortPartitioned(items, cmp, p);
  }

  /**
    The value an item is sorted by when every pair is compared the same way:
    through the computed field when `virtual`, else the field with `total` read.
  */
  function SortValue(x: Value, key: string, virtual: bool): Value
    requires x.Obj?
  {
    if virtual then VirtualValue(x, key) else Unwrap(Prop(x, key))
  }

  /** Every item is a record whose sort value is a number. */
  predicate NumericBy(items: seq<Value>, key: string)
  {
    (forall x :: x in items ==> x.Obj?)
    && (IsVirtual(key) ==> forall x :: x in items ==> HasStats(x))
    && (forall x :: x in items ==> SortValue(x, key, IsVirtual(key)).Num?)
  }

  /** The number an item is sorted by, when its sort value is a number. */
  function NumberOf(x: Value, key: string): real
  {
    if x.Obj? && SortValue(x, key, IsVirtual(key)).Num? then SortValue(x, key, IsVirtual(key)).n else 0.0
  }

  lemma NumericCompare(a: Value, b: Value, items: seq<Value>, config: SortConfig, host: Host)
    requires NumericBy(items, config.key) && a in items && b in items
    ensures var diff := NumberOf(a, config.key) - NumberOf(b, config.key);
            Comparator(config, host)(a, b) == if config.direction == Asc then diff else -diff
  {
  }

  lemma NumericPreorder(items: seq<Value>, config: SortConfig, host: Host)
    requires NumericBy(items, config.key)
    ensures TotalPreorderOn(Comparator(config, host), multiset(items))
  {
    var cmp := Comparator(config, host);
    var dom := multiset(items);
    forall a, b | a in dom && b in dom
      ensures cmp(a, b) <= 0.0 || cmp(b, a) <= 0.0
    {
      NumericCompare(a, b, items, config, host);
      NumericCompare(b, a, items, config, host);
    }
    forall a, b, c | a in dom && b in dom && c in dom && cmp(a, b) <= 0.0 && cmp(b, c) <= 0.0
      ensures cmp(a, c) <= 0.0
    {
      NumericCompare(a, b, items, config, host);
      NumericCompare(b, c, items, config, host);
      NumericCompare(a, c, items, config, host);
    }
  }

  /** Each item's number is at most (`Asc`) or at least (`Desc`) that of every later item. */
  predicate OrderedBy(r: seq<Value>, key: string, direction: Direction)
  {
    forall i, j :: 0 <= i < j < |r| ==>
      if direction == Asc then NumberOf(r[i], key) <= NumberOf(r[j], key) else NumberOf(r[i], key) >= NumberOf(r[j], key)
  }

  /**
    When every item's sort value is a number (a count, a computed field, an
    `earnings.total`), the result is ordered by that number: ascending for
    `Asc`, descending for `Desc`.
  */
  lemma SortedByNumber(items: seq<Value>, config: SortConfig, host: Host)
    requires NumericBy(items, config.key)
    ensures OrderedBy(SortItems(items, Some(config), host), config.key, config.direction)
  {
    var cmp := Comparator(config, host);
    NumericPreorder(items, config, host);
    SortSorted(items, cmp);
    var r := SortItems(items, Some(config), host);
    forall i, j | 0 <= i < j < |r|
      ensures if config.direction == Asc then NumberOf(r[i], config.key) <= NumberOf(r[j], config.key)
              else NumberOf(r[i], config.key) >= NumberOf(r[j], config.key)
    {
      assert r[i] in multiset(items) && r[j] in multiset(items);
      NumericCompare(r[i], r[j], items, config, host);
    }
  }

  /** A record of counts as the object the table holds: each count a number under its key. */
  function StatsObject(stats: Dict<real>): (r: Dict<Value>)
    ensures |r| == |stats|
    ensures forall i :: 0 <= i < |r| ==> r[i] == Entry(stats[i].key, Num(stats[i].value))
  {
    if stats == [] then [] else [Entry(stats[0].key, Num(stats[0].value))] + StatsObject(stats[1..])
  }

  lemma {:induction false} StatsObjectGet(stats: Dict<real>, k: string)
    ensures Get(StatsObject(stats), k) == if Get(stats, k).Some? then Some(Num(Get(stats, k).value)) else None
  {
    if stats != [] {
      StatsObjectGet(stats[1..], k);
      assert StatsObject(stats)[1..] == StatsObject(stats[1..]);
    }
  }

  lemma {:induction false} StatsObjectSum(stats: Dict<real>)
    ensures NumberSum(ObjectValues(Obj(StatsObject(stats)))) == Sum(stats)
  {
    if stats != [] {
      StatsObjectSum(stats[1..]);
      assert ObjectValues(Obj(StatsObject(stats)))[1..] == ObjectValues(Obj(StatsObject(stats[1..])));
    }
  }

  /**
    For a referral code whose `eventStats` is a record of counts, `signups`
    stands for its `signup` count (0 when absent) and `totalConversions` for
    the sum of all its counts.
  */
  lemma VirtualValuesOfStats(x: Value, stats: Dict<real>)
    requires x.Obj? && Prop(x, "eventStats") == Obj(StatsObject(stats))
    ensures VirtualValue(x, "signups") == Num(Lookup(stats, "signup"))
    ensures VirtualValue(x, "totalConversions") == Num(Sum(stats))
  {
    StatsObjectGet(stats, "signup");
    StatsObjectSum(stats);
  }
}
