/**
  The search-and-sort state behind a table: the search term and the sort
  configuration, the transitions the table's controls make, and the rows the
  table shows, filtered then sorted.
*/
module UseFilters {
  import opened Wrappers
  import opened Js
  import opened Seqs
  import opened Filters

  /** The configuration after a click on the header of `key`: the same key flips, a new key starts ascending. */
  function NextSort(current: Option<SortConfig>, key: string): (r: SortConfig)
    ensures r.key == key
    ensures current.Some? && current.value.key == key ==> r.direction != current.value.direction
    ensures current.None? || current.value.key != key ==> r.direction == Asc
  {
    if current.Some? && current.value.key == key then SortConfig(key, ToggleSortDirection(current.value.direction))
    else SortConfig(key, Asc)
  }

  /** Two clicks on the same header bring a sort by that key back to where it was. */
  lemma SortTwiceRestores(current: SortConfig)
    ensures NextSort(Some(NextSort(Some(current), current.key)), current.key) == current
  {
  }

  /** Whether the rows are searched: a term is typed and search keys are given. */
  predicate Searched(searchTerm: string, searchKeys: Option<seq<string>>)
  {
    searchTerm != "" && searchKeys.Some?
  }

  /**
    The rows shown: `sortItems(filterItems(items, ...), sortConfig)`, the
    filter applied when there is a term and search keys are given. Every
    occurrence of a matching row is shown, and no other row; without a
    non-blank search every row is shown.
  */
  function Shown(items: seq<Value>, searchTerm: string, sortConfig: Option<SortConfig>,
                 searchKeys: Option<seq<string>>, host: Host): (r: seq<Value>)
    requires forall x :: x in items ==> x.Obj?
    ensures r == SortItems(if Searched(searchTerm, searchKeys) then FilterItems(items, searchTerm, searchKeys.value, host)
                           else items, sortConfig, host)
    ensures searchTerm == "" && sortConfig.None? ==> r == items
    ensures forall x :: x in r ==> x in items
    ensures Searched(searchTerm, searchKeys) && !Text.IsBlank(searchTerm) ==>
              forall x :: multiset(r)[x] ==
                if AnyKeyMatches(x, searchKeys.value, Text.Lower(searchTerm), host) then multiset(items)[x] else 0
    ensures !Searched(searchTerm, searchKeys) || Text.IsBlank(searchTerm) ==> multiset(r) == multiset(items)
    ensures multiset(r) <= multiset(items)
  {
    var filtered :=
      if searchTerm != "" && searchKeys.Some? then FilterItems(items, searchTerm, searchKeys.value, host) else items;
    assert multiset(filtered) <= multiset(items) by {
      if filtered != items {
        FilteredIsSubmultiset(filtered, items);
      }
    }
    var r := SortItems(filtered, sortConfig, host);
    assert forall x :: x in r ==> x in multiset(r);
    r
  }

  /**
    When every row's sort value is a number, the rows shown under a sort are
    ordered by that number in the configured direction, whatever the search.
  */
  lemma ShownOrdered(items: seq<Value>, searchTerm: string, config: SortConfig,
                     searchKeys: Option<seq<string>>, host: Host)
    requires NumericBy(items, config.key)
    ensures OrderedBy(Shown(items, searchTerm, Some(config), searchKeys, host), config.key, config.direction)
  {
    var filtered :=
      if Searched(searchTerm, searchKeys) then FilterItems(items, searchTerm, searchKeys.value, host) else items;
    assert forall x :: x in filtered ==> x in items;
    SortedByNumber(filtered, config, host);
  }

  lemma {:induction false} FilteredIsSubmultiset(a: seq<Value>, b: seq<Value>)
    requires SubsequenceOf(a, b)
    ensures multiset(a) <= multiset(b)
    decreases |b|
  {
    if a != [] {
      assert b == [b[0]] + b[1..];
      if a[0] == b[0] && SubsequenceOf(a[1..], b[1..]) {
        FilteredIsSubmultiset(a[1..], b[1..]);
        assert a == [a[0]] + a[1..];
      } else {
        FilteredIsSubmultiset(a, b[1..]);
      }
    }
  }

  /** `useFilters(items, options)`: the state the hook keeps between renders. */
  class FilterState {
    var searchTerm: string
    var sortConfig: Option<SortConfig>

    /** A fresh table: no term, no sort. */
    constructor()
      ensures searchTerm == "" && sortConfig.None?
    {
      searchTerm := "";
      sortConfig := None;
    }

    /** `setSearchTerm(term)`. */
    method SetSearchTerm(term: string)
      modifies this
      ensures searchTerm == term && sortConfig == old(sortConfig)
    {
      searchTerm := term;
    }

    /** `handleSort(key)`. */
    method HandleSort(key: string)
      modifies this
      ensures sortConfig == Some(NextSort(old(sortConfig), key))
      ensures searchTerm == old(searchTerm)
      ensures HasActiveFilters()
    {
      if sortConfig.Some? && sortConfig.value.key == key {
        var direction := if sortConfig.value.direction == Asc then Desc else Asc;
        sortConfig := Some(SortConfig(key, direction));
      } else {
        sortConfig := Some(SortConfig(key, Asc));
      }
    }

    /** `clearFilters()`. */
    method ClearFilters()
      modifies this
      ensures searchTerm == "" && sortConfig.None?
      ensures !HasActiveFilters()
    {
      searchTerm := "";
      sortConfig := None;
    }

    /** `hasActiveFilters`: a term is typed or a sort is chosen. */
    function HasActiveFilters(): (r: bool)
      reads this
      ensures r <==> searchTerm != "" || sortConfig.Some?
    {
      searchTerm != "" || sortConfig.Some?
    }

    /** `filteredItems`: the rows shown under the current state. */
    function FilteredItems(items: seq<Value>, searchKeys: Option<seq<string>>, host: Host): (r: seq<Value>)
      reads this
      requires forall x :: x in items ==> x.Obj?
      ensures r == SortItems(if Searched(searchTerm, searchKeys) then FilterItems(items, searchTerm, searchKeys.value, host)
                             else items, sortConfig, host)
      ensures !HasActiveFilters() ==> r == items
      ensures Searched(searchTerm, searchKeys) && !Text.IsBlank(searchTerm) ==>
                forall x :: multiset(r)[x] ==
                  if AnyKeyMatches(x, searchKeys.value, Text.Lower(searchTerm), host) then multiset(items)[x] else 0
      ensures !Searched(searchTerm, searchKeys) || Text.IsBlank(searchTerm) ==> multiset(r) == multiset(items)
      ensures multiset(r) <= multiset(items)
    {
      Shown(items, searchTerm, sortConfig, searchKeys, host)
    }
  }
}
