/**
 * The inventory page (pages/Index.jsx): it owns a store, the filter-and-sort
 * hook over the store's list and the filter panel, loads the list when it
 * mounts, reports each action in a toast, and shows stock counters over the
 * filtered list.
 */
module Index {
  import opened Common
  import opened UseFilterSort
  import FilterSort
  import opened BookStores
  import BooksList

  // ===========================================================================
  // Stock counters
  // ===========================================================================

  /**
   * The page's three counters, plus the in-stock counter as its "10+" label
   * and the stock filter describe it (`InStockTenOrMore`).
   */
  datatype Counter = InStockAsWritten | InStockTenOrMore | LowStockCounter | OutOfStockCounter

  predicate Counts(c: Counter, qty: int) {
    match c
    case InStockAsWritten => qty > 10
    case InStockTenOrMore => qty >= 10
    case LowStockCounter => qty > 0 && qty < 10
    case OutOfStockCounter => qty == 0
  }

  /** `books.filter(...).length` for one counter. */
  function CountOf(c: Counter, books: seq<Book>): (n: nat)
    ensures n <= |books|
    ensures n == 0 <==> forall i :: 0 <= i < |books| ==> !Counts(c, books[i].qty)
  {
    if books == [] then 0
    else
      var rest := CountOf(c, books[1..]);
      assert forall i :: 1 <= i < |books| ==> books[1..][i - 1] == books[i];
      (if Counts(c, books[0].qty) then 1 else 0) + rest
  }

  /** A one-book list counts 1 when the counter's condition holds and 0 otherwise. */
  lemma CountOfSingle(c: Counter, b: Book)
    ensures CountOf(c, [b]) == if Counts(c, b.qty) then 1 else 0
  {
    assert [b][1..] == [];
  }

  /** Counting two lists joined is counting each list, so every counter is the number of its matching books. */
  lemma {:induction false} CountOfAppend(c: Counter, a: seq<Book>, b: seq<Book>)
    ensures CountOf(c, a + b) == CountOf(c, a) + CountOf(c, b)
  {
    if a == [] {
      assert a + b == b;
    } else {
      var ab := a + b;
      assert ab[0] == a[0] && ab[1..] == a[1..] + b;
      CountOfAppend(c, a[1..], b);
    }
  }

  /** On a list with no negative quantity the counters with the "10+" threshold split the list exactly. */
  lemma {:induction false} CountersPartition(books: seq<Book>)
    requires forall i :: 0 <= i < |books| ==> books[i].qty >= 0
    ensures CountOf(InStockTenOrMore, books) + CountOf(LowStockCounter, books) + CountOf(OutOfStockCounter, books) == |books|
  {
    if books != [] {
      CountersPartition(books[1..]);
    }
  }

  /** A list drawn from a store without negative quantities is split exactly by the "10+" counters. */
  lemma CountersPartitionOfShown(all: seq<Book>, shown: seq<Book>)
    requires forall b :: b in shown ==> b in all
    ensures (forall b :: b in all ==> b.qty >= 0) ==>
              CountOf(InStockTenOrMore, shown) + CountOf(LowStockCounter, shown) + CountOf(OutOfStockCounter, shown) == |shown|
  {
    if forall b :: b in all ==> b.qty >= 0 {
      assert forall i :: 0 <= i < |shown| ==> shown[i] in all;
      CountersPartition(shown);
    }
  }

  /** The counters as written never count a book twice, but can miss some. */
  lemma {:induction false} AsWrittenCountersAtMostAll(books: seq<Book>)
    ensures CountOf(InStockAsWritten, books) + CountOf(LowStockCounter, books) + CountOf(OutOfStockCounter, books) <= |books|
  {
    if books != [] {
      AsWrittenCountersAtMostAll(books[1..]);
    }
  }

  /** A single book with exactly 10 copies is counted by none of the three counters as written. */
  lemma TenCopiesCountedNowhere(b: Book)
    requires b.qty == 10
    ensures CountOf(InStockAsWritten, [b]) == 0 && CountOf(LowStockCounter, [b]) == 0 && CountOf(OutOfStockCounter, [b]) == 0
    ensures CountOf(InStockTenOrMore, [b]) == 1
  {
    assert [b][1..] == [];
  }

  /** A book with a negative quantity is in no counter, as written or corrected. */
  lemma NegativeCountedNowhere(b: Book)
    requires b.qty < 0
    ensures forall c :: CountOf(c, [b]) == 0
  {
    assert [b][1..] == [];
  }

  /** The stock-status value each counter corresponds to. */
  function StatusOf(c: Counter): string {
    match c
    case InStockAsWritten => "inStock"
    case InStockTenOrMore => "inStock"
    case LowStockCounter => "lowStock"
    case OutOfStockCounter => "outOfStock"
  }

  /**
   * On a list with no negative quantity each "10+" counter equals the number of
   * books the matching stock filter keeps.
   */
  lemma {:induction false} CounterMatchesFilter(c: Counter, books: seq<Book>)
    requires c != InStockAsWritten
    requires forall i :: 0 <= i < |books| ==> books[i].qty >= 0
    ensures CountOf(c, books) == |FilterBooks(books, Filters("", StatusOf(c), "all", ""))|
  {
    if books != [] {
      CounterMatchesFilter(c, books[1..]);
      CounterMatchesKeep(c, books[0]);
    }
  }

  /** For one book with a non-negative quantity, the counter and the stock filter agree. */
  lemma CounterMatchesKeep(c: Counter, b: Book)
    requires c != InStockAsWritten && b.qty >= 0
    ensures Keep(Filters("", StatusOf(c), "all", ""), b) <==> Counts(c, b.qty)
  {
  }

  // ===========================================================================
  // The page
  // ===========================================================================

  datatype ToastKind = Success | Error

  datatype Toast = Toast(kind: ToastKind, message: string)

  /** What the books section shows. */
  datatype BooksArea = LoadingSpinner | NoMatches | ListView(view: BooksList.View)

  class IndexPage {
    const store: BooksStore
    const hook: FilterSortHook
    /** The panel; replaced whenever it is unmounted and mounted again. */
    var bar: FilterSort.FilterSortBar
    var toast: Option<Toast>

    /** The page before its mount effect runs: an empty store and default controls. */
    constructor()
      ensures fresh(store) && fresh(hook) && fresh(bar)
      ensures store.books == [] && !store.loading && store.error == ""
      ensures hook.filters == DefaultFilters && hook.sortConfig == DefaultSort
      ensures bar.filters == FilterSort.ClearedFilters && bar.sortConfig == DefaultSort
      ensures toast == None
    {
      store := new BooksStore();
      hook := new FilterSortHook();
      bar := new FilterSort.FilterSortBar();
      toast := None;
    }

    /** The list on screen: the store's books filtered and sorted by the hook. */
    function FilteredBooks(): seq<Book>
      reads this, store, hook
    {
      hook.FilteredBooks(store.books)
    }

    /** The "Reset All Filters" button is shown while the hook has an active filter. */
    predicate ShowResetButton()
      reads this, hook
    {
      FilterSort.HasActiveFilters(hook.filters)
    }

    /** The panel is mounted only while nothing is loading and the store holds books. */
    predicate ShowControls()
      reads this, store
    {
      !store.loading && |store.books| > 0
    }

    /** The books section: a spinner for a first load, a notice when filters hide everything, else the grid. */
    function Area(): (a: BooksArea)
      reads this, store, hook
      ensures a == LoadingSpinner <==> store.loading && |store.books| == 0
      ensures a == NoMatches <==> |FilteredBooks()| == 0 && |store.books| > 0
      ensures a.ListView? ==> a.view == BooksList.Render(FilteredBooks(), store.loading)
      ensures a.ListView? && !store.loading && |store.books| > 0 ==> a.view.CardGrid? && |a.view.cards| == FilteredCount()
    {
      var filtered := FilteredBooks();
      if store.loading && |store.books| == 0 then LoadingSpinner
      else if |filtered| == 0 && |store.books| > 0 then NoMatches
      else ListView(BooksList.Render(filtered, store.loading))
    }

    /** The first counter shows how many books survive the filters, never more than the store holds. */
    function FilteredCount(): (n: nat)
      reads this, store, hook
      ensures n <= |store.books|
    {
      |FilteredBooks()|
    }

    /** The three stock counters as the page computes them: the in-stock one counts only more than 10 copies. */
    function StockCountersAsWritten(): (counts: (nat, nat, nat))
      reads this, store, hook
      ensures counts.0 + counts.1 + counts.2 <= FilteredCount()
    {
      var filtered := FilteredBooks();
      AsWrittenCountersAtMostAll(filtered);
      (CountOf(InStockAsWritten, filtered), CountOf(LowStockCounter, filtered), CountOf(OutOfStockCounter, filtered))
    }

    /**
     * The three stock counters with the in-stock one counting 10 copies or
     * more, as its label reads: on a store without negative quantities they
     * add up to the number of books shown.
     */
    function StockCounters(): (counts: (nat, nat, nat))
      reads this, store, hook
      ensures (forall b :: b in store.books ==> b.qty >= 0) ==> counts.0 + counts.1 + counts.2 == FilteredCount()
    {
      var filtered := FilteredBooks();
      CountersPartitionOfShown(store.books, filtered);
      (CountOf(InStockTenOrMore, filtered), CountOf(LowStockCounter, filtered), CountOf(OutOfStockCounter, filtered))
    }

    /**
     * `handleLoadBooks` as written: the store's `fetchBooks` always throws, so
     * the list stays as it was and the error toast is shown. The panel is
     * unmounted while loading and comes back with its initial state.
     */
    method HandleLoadBooksAsWritten()
      modifies this, store
      ensures store.books == old(store.books) && store.error == UndeclaredClientMessage
      ensures toast == Some(Toast(Error, "Failed to load books"))
      ensures fresh(bar) && bar.filters == FilterSort.ClearedFilters && bar.sortConfig == DefaultSort
    {
      var outcome := store.FetchBooksAsWritten();
      bar := new FilterSort.FilterSortBar();
      toast := Some(Toast(Error, "Failed to load books"));
    }

    /** `handleLoadBooks` with a working query: loaded rows replace the list and a success toast is shown. */
    method HandleLoadBooks(result: QueryResult)
      modifies this, store
      ensures result.QueryData? ==> store.books == result.rows && toast == Some(Toast(Success, "Books loaded successfully!"))
      ensures result.QueryError? ==> store.books == old(store.books) && toast == Some(Toast(Error, "Failed to load books"))
      ensures !store.loading
      ensures fresh(bar) && bar.filters == FilterSort.ClearedFilters && bar.sortConfig == DefaultSort
    {
      var outcome := store.FetchBooks(result);
      bar := new FilterSort.FilterSortBar();
      if outcome.Resolved? {
        toast := Some(Toast(Success, "Books loaded successfully!"));
      } else {
        toast := Some(Toast(Error, "Failed to load books"));
      }
    }

    /** `handleDeleteBook`: the store removes the book and the toast reports the outcome. */
    method HandleDeleteBook(id: int, reply: Reply<()>)
      modifies this, store
      ensures reply.Delivered? ==> store.books == RemoveById(old(store.books), id) && toast == Some(Toast(Success, "Book deleted successfully!"))
      ensures reply.Failed? ==> store.books == old(store.books) && toast == Some(Toast(Error, "Failed to delete book"))
      ensures !store.loading
      ensures fresh(bar) && bar.filters == FilterSort.ClearedFilters && bar.sortConfig == DefaultSort
    {
      var outcome := store.DeleteBook(id, reply);
      bar := new FilterSort.FilterSortBar();
      if outcome.Resolved? {
        toast := Some(Toast(Success, "Book deleted successfully!"));
      } else {
        toast := Some(Toast(Error, "Failed to delete book"));
      }
    }

    /** A panel control changes one entry; the hook receives the panel's whole record. */
    method ChangeFilter(key: FilterSort.FilterKey, value: string)
      modifies bar, hook
      ensures hook.filters == bar.filters == FilterSort.WithFilter(old(bar.filters), key, value)
      ensures hook.sortConfig == old(hook.sortConfig) && bar.sortConfig == old(bar.sortConfig)
    {
      var notified := bar.HandleFilterChange(key, value);
      hook.HandleFilterChange(notified);
    }

    /** A sort button: the hook receives the panel's next sort record. */
    method ClickSort(field: SortField)
      modifies bar, hook
      ensures hook.sortConfig == bar.sortConfig == FilterSort.NextSort(old(bar.sortConfig), field)
      ensures hook.filters == old(hook.filters) && bar.filters == old(bar.filters)
    {
      var notified := bar.HandleSortChange(field);
      hook.HandleSortChange(notified);
    }

    /** The panel's "Clear" button: both copies of the filters return to the defaults. */
    method ClearFilters()
      modifies bar, hook
      ensures hook.filters == bar.filters == DefaultFilters
      ensures !ShowResetButton()
      ensures hook.sortConfig == old(hook.sortConfig) && bar.sortConfig == old(bar.sortConfig)
    {
      var notified := bar.ClearFilters();
      hook.HandleFilterChange(notified);
    }

    /**
     * "Reset All Filters": only the hook is reset. The panel keeps its own
     * record, so the next panel control re-sends the filters it still holds.
     */
    method ResetAllFilters()
      modifies hook
      ensures hook.filters == DefaultFilters && hook.sortConfig == DefaultSort
      ensures !ShowResetButton()
      ensures FilterSort.ActiveFilterCount(hook.filters) == 0
      ensures bar.filters == old(bar.filters) && bar.sortConfig == old(bar.sortConfig)
    {
      hook.ResetFiltersAndSort();
    }

    method CloseToast()
      modifies this`toast
      ensures toast == None
    {
      toast := None;
    }
  }
}
