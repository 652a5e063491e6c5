/**
 * The filter-and-sort panel (components/FilterSort.jsx): it keeps its own copy
 * of the filter and sort records, updates one entry per user action and hands
 * the new record to the page through a callback, modelled as the value each
 * handler returns.
 */
module FilterSort {
  import opened UseFilterSort

  /** The four entries of the filter record a control can change. */
  datatype FilterKey = SearchKey | StockStatusKey | PriceRangeKey | AuthorKey

  /** `filters[key]` */
  function Get(f: Filters, key: FilterKey): string {
    match key
    case SearchKey => f.search
    case StockStatusKey => f.stockStatus
    case PriceRangeKey => f.priceRange
    case AuthorKey => f.author
  }

  /** `{ ...filters, [key]: value }`: one entry replaced, the other three kept. */
  function WithFilter(f: Filters, key: FilterKey, value: string): (r: Filters)
    ensures Get(r, key) == value
    ensures forall other :: other != key ==> Get(r, other) == Get(f, other)
  {
    match key
    case SearchKey => f.(search := value)
    case StockStatusKey => f.(stockStatus := value)
    case PriceRangeKey => f.(priceRange := value)
    case AuthorKey => f.(author := value)
  }

  /** A filter record is determined by its four entries. */
  lemma FiltersExtensional(f: Filters, g: Filters)
    requires forall key :: Get(f, key) == Get(g, key)
    ensures f == g
  {
    assert Get(f, SearchKey) == Get(g, SearchKey);
    assert Get(f, StockStatusKey) == Get(g, StockStatusKey);
    assert Get(f, PriceRangeKey) == Get(g, PriceRangeKey);
    assert Get(f, AuthorKey) == Get(g, AuthorKey);
  }

  /** Setting an entry to the value it already has changes nothing, and a second write to the same entry overrides the first. */
  lemma WithFilterLaws(f: Filters, key: FilterKey, v: string, w: string)
    ensures WithFilter(f, key, Get(f, key)) == f
    ensures WithFilter(WithFilter(f, key, v), key, w) == WithFilter(f, key, w)
  {
    FiltersExtensional(WithFilter(f, key, Get(f, key)), f);
    FiltersExtensional(WithFilter(WithFilter(f, key, v), key, w), WithFilter(f, key, w));
  }

  /** Writes to two different entries commute. */
  lemma WithFilterCommutes(f: Filters, k1: FilterKey, v1: string, k2: FilterKey, v2: string)
    requires k1 != k2
    ensures WithFilter(WithFilter(f, k1, v1), k2, v2) == WithFilter(WithFilter(f, k2, v2), k1, v1)
  {
    FiltersExtensional(WithFilter(WithFilter(f, k1, v1), k2, v2), WithFilter(WithFilter(f, k2, v2), k1, v1));
  }

  /** The sort record after a click on the button for `field`. */
  function NextSort(current: SortConfig, field: SortField): (r: SortConfig)
    ensures r.field == field
  {
    SortConfig(field, if current.field == field && current.direction == Asc then Desc else Asc)
  }

  /**
   * Clicking the active field's button flips the direction; clicking another
   * field's button starts that field ascending, so two clicks on a new field
   * give descending order.
   */
  lemma SortClicks(current: SortConfig, field: SortField)
    ensures current.field == field ==> NextSort(current, field).direction != current.direction
    ensures current.field != field ==> NextSort(current, field).direction == Asc
    ensures NextSort(NextSort(current, field), field).direction != NextSort(current, field).direction
    ensures current.field != field ==> NextSort(NextSort(current, field), field) == SortConfig(field, Desc)
  {
  }

  /** The record `clearFilters` installs; equal to the hook's defaults. */
  const ClearedFilters := Filters("", "all", "all", "")

  /** The panel shows "Clear" when some entry departs from its cleared value (an empty string is falsy). */
  predicate HasActiveFilters(f: Filters) {
    f.search != "" || f.stockStatus != "all" || f.priceRange != "all" || f.author != ""
  }

  /** `flags.filter(Boolean).length` */
  function CountTrue(flags: seq<bool>): (n: nat)
    ensures n <= |flags|
    ensures n == multiset(flags)[true]
    ensures n > 0 <==> exists i :: 0 <= i < |flags| && flags[i]
  {
    if flags == [] then 0
    else
      var rest := CountTrue(flags[1..]);
      assert flags == [flags[0]] + flags[1..];
      assert forall i :: 1 <= i < |flags| ==> flags[i] == flags[1..][i - 1];
      assert rest > 0 ==> exists i :: 1 <= i < |flags| && flags[i] by {
        if rest > 0 {
          var j :| 0 <= j < |flags[1..]| && flags[1..][j];
          assert flags[j + 1];
        }
      }
      (if flags[0] then 1 else 0) + rest
  }

  /** The badge number: how many of the four entries are active. */
  function ActiveFilterCount(f: Filters): (n: nat)
    ensures n == (if f.search != "" then 1 else 0) + (if f.stockStatus != "all" then 1 else 0)
               + (if f.priceRange != "all" then 1 else 0) + (if f.author != "" then 1 else 0)
    ensures n <= 4
    ensures n > 0 <==> HasActiveFilters(f)
  {
    var search, stock, price, author := f.search != "", f.stockStatus != "all", f.priceRange != "all", f.author != "";
    CountTrueSingle(search);
    CountTrueSingle(stock);
    CountTrueSingle(price);
    CountTrueSingle(author);
    CountTrueAppend([search], [stock]);
    CountTrueAppend([search] + [stock], [price]);
    CountTrueAppend([search] + [stock] + [price], [author]);
    CountTrue([search] + [stock] + [price] + [author])
  }

  /** Counting the flags of two lists joined is counting each list. */
  lemma CountTrueAppend(a: seq<bool>, b: seq<bool>)
    ensures CountTrue(a + b) == CountTrue(a) + CountTrue(b)
  {
    assert multiset(a + b) == multiset(a) + multiset(b);
  }

  /** One flag counts 1 when it holds and 0 otherwise. */
  lemma CountTrueSingle(flag: bool)
    ensures CountTrue([flag]) == if flag then 1 else 0
  {
    assert [flag][1..] == [];
  }

  /** When every flag holds, every flag is counted. */
  lemma {:induction false} CountTrueAll(flags: seq<bool>)
    requires forall i :: 0 <= i < |flags| ==> flags[i]
    ensures CountTrue(flags) == |flags|
  {
    if flags != [] {
      assert forall i :: 0 <= i < |flags[1..]| ==> flags[1..][i] == flags[i + 1];
      CountTrueAll(flags[1..]);
    }
  }

  /** With all four entries active the badge reads 4. */
  lemma AllFourActive(f: Filters)
    requires f.search != "" && f.stockStatus != "all" && f.priceRange != "all" && f.author != ""
    ensures ActiveFilterCount(f) == 4
  {
    CountTrueAll([f.search != "", f.stockStatus != "all", f.priceRange != "all", f.author != ""]);
  }

  /** The panel's own state; each handler returns the record it passes to the page. */
  class FilterSortBar {
    var filters: Filters
    var sortConfig: SortConfig

    constructor()
      ensures filters == ClearedFilters && sortConfig == DefaultSort
      ensures !HasActiveFilters(filters)
    {
      filters := ClearedFilters;
      sortConfig := DefaultSort;
    }

    method HandleFilterChange(key: FilterKey, value: string) returns (notified: Filters)
      modifies this
      ensures filters == WithFilter(old(filters), key, value)
      ensures Get(filters, key) == value
      ensures notified == filters && sortConfig == old(sortConfig)
    {
      filters := WithFilter(filters, key, value);
      notified := filters;
    }

    method HandleSortChange(field: SortField) returns (notified: SortConfig)
      modifies this
      ensures sortConfig == NextSort(old(sortConfig), field)
      ensures notified == sortConfig && filters == old(filters)
    {
      sortConfig := NextSort(sortConfig, field);
      notified := sortConfig;
    }

    /** Resets the four filter entries; the sort record is left as it is. */
    method ClearFilters() returns (notified: Filters)
      modifies this
      ensures filters == ClearedFilters && notified == filters
      ensures sortConfig == old(sortConfig)
      ensures !HasActiveFilters(filters) && ActiveFilterCount(filters) == 0
    {
      filters := ClearedFilters;
      notified := filters;
    }
  }
}
