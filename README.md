# BookstoreDB front end — a Dafny model

This project models the React front end of BookstoreDB, a small inventory
manager for a bookshop. Its three pages are:

- the inventory page, which lists, filters, sorts and deletes books;
- the add page;
- the edit page.

All three work through one store of book state and actions, and share a
form component and a filter-and-sort hook. Each source file of that core
becomes one Dafny module:

| source file | module | file |
|---|---|---|
| frontend/src/hooks/useFilterSort.js | `UseFilterSort` | use_filter_sort.dfy |
| frontend/src/components/FilterSort.jsx | `FilterSort` | filter_sort.dfy |
| frontend/src/components/BookForm.jsx | `BookForm` | book_form.dfy |
| frontend/src/stores/BookStores.jsx | `BookStores` | book_stores.dfy |
| frontend/src/components/BooksList.jsx | `BooksList` | books_list.dfy |
| frontend/src/pages/Index.jsx | `Index` | index.dfy |
| frontend/src/pages/EditBook.jsx | `EditBook` | edit_book.dfy |
| frontend/src/pages/AddBook.jsx | `AddBook` | add_book.dfy |
| frontend/src/config/api.js | `ApiConfig` | api.dfy |

`Common` (common.dfy) holds what the modules share:

- the `Book` record and `Option`;
- `Settled`, the outcome of an awaited promise;
- the parts of JavaScript's string library the core relies on, each written
  out: `toLowerCase` on ASCII, `includes`, `${n}` for an integer, and
  `parseInt` without a radix, including its switch to base 16 after "0x".

**Pure parts become functions.** The filter-and-sort pipeline, the
validation rules, the error-message helper, the list updates, the badge
and the URL builder are functions with lemmas about them.

**The filter pipeline.** The filter callback is `Keep`, written with its
early returns in source order. It is proved equal to the conjunction of
four independent band predicates.

**The sort.** `Array.prototype.sort` with the hook's comparator is modelled
as a stable insertion sort, `SortBooks`. The model proves four things
about it:

- its output is ordered by the comparator;
- its output is a permutation of its input;
- books with equal keys keep their order;
- it is the only list with those properties (`AnyStableSortIsSortBooks`).

So any stable sort with this comparator returns exactly `SortBooks`.

**Stateful parts become classes.** Each React state record that handlers
update becomes a `class` field, and each handler becomes a `method`:

- the hook's `filters` and `sortConfig` (`UseFilterSort.FilterSortHook`);
- the panel's own copy of them (`FilterSort.FilterSortBar`);
- the form's `errors` and `touched` (`BookForm.FormState`);
- the eight state values of the store (`BookStores.BooksStore`);
- the three pages (`Index.IndexPage`, `EditBook.EditBookPage`,
  `AddBook.AddBookPage`).

A handler that calls a parent's callback returns the value it passes to
that callback. Each page calls `useBooksStore()` itself, so each page
object owns its own store.

**Requests.** An action that sends a request takes the backend's reply as
an input. The reply is either a delivered record, or a failure:

- a non-success status, with the `message` of its body or "";
- a thrown error, such as a network failure.

An action runs to completion in one method call. The model states:

- its effect on every field of the store, including the fields it leaves
  alone;
- the settled outcome that the calling page reacts to.

**The inventory page.** The filter panel is mounted only while nothing is
loading and the store holds books (frontend/src/pages/Index.jsx:182). So
after every load and every delete the page replaces its panel with a
fresh one, which holds the default filters. The hook keeps its filters
through such a remount, so the two copies of the filters can disagree
after it. "Reset All Filters" (frontend/src/pages/Index.jsx:99-106)
resets only the hook, which leaves them disagreeing as well. The model
keeps both copies and states what each one holds after each action.

**Where the code and its own labels disagree, the model follows the code**
(`UseFilterSort.NegativeStockFilters`, `Index.NegativeCountedNowhere`):

- The "lowStock" filter, offered as "Low Stock (1-9)"
  (frontend/src/components/FilterSort.jsx:108, and the counter's label at
  frontend/src/pages/Index.jsx:144), rejects only a quantity of
  0 or of 10 and more. So it keeps negative quantities
  (frontend/src/hooks/useFilterSort.js:33-35).
- The "outOfStock" filter keeps every quantity of 0 or less
  (frontend/src/hooks/useFilterSort.js:36-38). The page's out-of-stock
  counter counts only `qty === 0` (frontend/src/pages/Index.jsx:59), so a
  negative quantity is in that filter but in no counter.

## Model

| member | source | states |
|---|---|---|
| Common.LowerChar | frontend/src/hooks/useFilterSort.js:21-23 | a lower-cased character is never an upper-case letter; other characters are unchanged and letters move by 32 code points |
| Common.LowerAt | frontend/src/hooks/useFilterSort.js:21-23 | lower-casing a string maps each character on its own and leaves no upper-case letter |
| Common.LowerIdempotent | frontend/src/hooks/useFilterSort.js:21-23 | lower-casing twice is lower-casing once |
| Common.Includes | frontend/src/hooks/useFilterSort.js:22-23 | `includes` holds exactly when the needle occurs at some index of the text |
| Common.IncludesEmpty | frontend/src/hooks/useFilterSort.js:20-24 | the empty search text occurs in every text, so an empty search would keep every book even without its guard |
| Common.Decimal | frontend/src/stores/BookStores.jsx:48 | the decimal text of a status code is non-empty and made of digits only |
| Common.DigitPrefix | frontend/src/stores/BookStores.jsx:179 | the digit prefix `parseInt` reads is a prefix, all digits of the base, and maximal |
| Common.ParseInt | frontend/src/stores/BookStores.jsx:179 | `parseInt` gives NaN exactly when no digit of the base follows the optional sign and, for base 16, the "0x" or "0X"; the sign of the result follows the text's sign |
| Common.ParseIntDecimal | frontend/src/stores/BookStores.jsx:179 | "42" is 42, "-7" is -7, and "12abc" is 12 |
| Common.ParseIntNaN | frontend/src/stores/BookStores.jsx:179 | "abc", "", "-" and "0xg" are NaN |
| Common.ParseIntHex | frontend/src/stores/BookStores.jsx:179 | "0x1A" is 26 and "-0X10" is -16 |
| Common.DecimalValue | frontend/src/stores/BookStores.jsx:179 | the decimal text of a number is all digits, and reading it back gives the number |
| Common.ParseIntText | frontend/src/components/BooksList.jsx:13-15 | `parseInt` of an integer's text is that integer, negative ones included |
| UseFilterSort.KeepIsConjunction | frontend/src/hooks/useFilterSort.js:18-65 | a book is kept iff it passes search, stock, price and author on their own; an unknown status or range keeps every book |
| UseFilterSort.NegativeStockFilters | frontend/src/hooks/useFilterSort.js:28-40 | a negative quantity passes "lowStock" and "outOfStock" and fails "inStock" |
| UseFilterSort.PriceBandsPartition | frontend/src/hooks/useFilterSort.js:43-56 | every price lies in exactly one of the three price bands |
| UseFilterSort.FilterBooks | frontend/src/hooks/useFilterSort.js:17-66 | the result holds each kept book as often as the input does, and no other book |
| UseFilterSort.FilterBooksSingle | frontend/src/hooks/useFilterSort.js:18 | a one-book list keeps its book exactly when the book passes |
| UseFilterSort.FilterBooksAppend | frontend/src/hooks/useFilterSort.js:18 | filtering `a + b` gives the filtered `a` followed by the filtered `b`; with the one-book case this fixes the result, so the kept books stay in input order |
| UseFilterSort.DefaultFiltersKeepAll | frontend/src/hooks/useFilterSort.js:4-66 | with the initial filters the filter returns its input unchanged |
| UseFilterSort.FilterAllKept | frontend/src/hooks/useFilterSort.js:17-66 | a list whose every book passes is returned unchanged |
| UseFilterSort.LexIrreflexive | frontend/src/hooks/useFilterSort.js:87-93 | no string is below itself under JavaScript's `<` |
| UseFilterSort.LexAsymmetric | frontend/src/hooks/useFilterSort.js:87-93 | two strings are never each below the other |
| UseFilterSort.LexTransitive | frontend/src/hooks/useFilterSort.js:87-93 | string `<` is transitive |
| UseFilterSort.LexTotal | frontend/src/hooks/useFilterSort.js:87-93 | of two different strings one is below the other |
| UseFilterSort.CompareMeaning | frontend/src/hooks/useFilterSort.js:70-94 | the comparator returns 0 iff the keys are equal, and a negative value iff the first key is smaller ascending, or larger descending |
| UseFilterSort.CompareAntisymmetric | frontend/src/hooks/useFilterSort.js:70-94 | swapping the arguments negates the comparator |
| UseFilterSort.CompareTransitive | frontend/src/hooks/useFilterSort.js:70-94 | "not after" is transitive, so the comparator is consistent |
| UseFilterSort.Insert | frontend/src/hooks/useFilterSort.js:70 | inserting adds exactly the one book |
| UseFilterSort.SortBooks | frontend/src/hooks/useFilterSort.js:69-97 | the sorted copy is a permutation of the filtered list |
| UseFilterSort.InsertSorted | frontend/src/hooks/useFilterSort.js:70-94 | inserting into a sorted list keeps it sorted |
| UseFilterSort.SortBooksSorted | frontend/src/hooks/useFilterSort.js:70-94 | every earlier book compares "not after" every later one |
| UseFilterSort.SortedMeansOrderedByKey | frontend/src/hooks/useFilterSort.js:87-93 | in sorted output keys never decrease ascending and never increase descending |
| UseFilterSort.InsertStable | frontend/src/hooks/useFilterSort.js:70 | insertion puts the new book before every book of its own key |
| UseFilterSort.SortStableAt | frontend/src/hooks/useFilterSort.js:70 | for each key, the books with that key appear in input order |
| UseFilterSort.SortBooksStable | frontend/src/hooks/useFilterSort.js:70 | the sort is stable in both directions |
| UseFilterSort.StableSortedUnique | frontend/src/hooks/useFilterSort.js:70 | two sorted lists with the same books key by key, in the same order, are equal |
| UseFilterSort.AnyStableSortIsSortBooks | frontend/src/hooks/useFilterSort.js:70 | every stable sort with this comparator returns the model's sort |
| UseFilterSort.SortedIsFixpoint | frontend/src/hooks/useFilterSort.js:69-97 | sorting a sorted list changes nothing |
| UseFilterSort.SortedAndFilteredBooks | frontend/src/hooks/useFilterSort.js:17-97 | the hook's list holds exactly the kept books, each as often as the filter keeps it |
| UseFilterSort.FilteredCount | frontend/src/hooks/useFilterSort.js:129-130 | `filteredCount` is the number of kept books and never exceeds `totalBooks` |
| UseFilterSort.PipelineSortedStable | frontend/src/hooks/useFilterSort.js:17-97 | the hook's list is sorted and is a stable reordering of the filtered list |
| UseFilterSort.DefaultFiltersPermute | frontend/src/hooks/useFilterSort.js:4-14 | with the initial filters the hook shows every book |
| UseFilterSort.PipelineIdempotent | frontend/src/hooks/useFilterSort.js:17-97 | feeding the hook's list back through it with the same settings changes nothing |
| UseFilterSort.DescIsNotReversedAsc | frontend/src/hooks/useFilterSort.js:87-93 | with tied keys both directions keep input order, so descending is not reversed ascending |
| UseFilterSort.OutOfStockScenario | frontend/src/hooks/useFilterSort.js:36-37 | "out of stock" keeps the 0-copy book and drops the 20-copy one |
| UseFilterSort.Over50Scenario | frontend/src/hooks/useFilterSort.js:52-53 | "over 50" keeps the 60.00 book and drops the 5.00 one |
| UseFilterSort.FilterSortHook.constructor | frontend/src/hooks/useFilterSort.js:4-14 | the hook starts with the empty search, "all" categories and title ascending |
| UseFilterSort.FilterSortHook.HandleFilterChange | frontend/src/hooks/useFilterSort.js:100-102 | the new filter record replaces the old one; the sort is kept |
| UseFilterSort.FilterSortHook.HandleSortChange | frontend/src/hooks/useFilterSort.js:104-106 | the new sort record replaces the old one; the filters are kept |
| UseFilterSort.FilterSortHook.ResetFiltersAndSort | frontend/src/hooks/useFilterSort.js:109-120 | filters and sort return to their defaults, after which every book is shown |
| FilterSort.WithFilter | frontend/src/components/FilterSort.jsx:30 | the named entry takes the new value and the other three keep theirs |
| FilterSort.WithFilterLaws | frontend/src/components/FilterSort.jsx:30 | writing an entry's own value changes nothing; a second write to an entry overrides the first |
| FilterSort.WithFilterCommutes | frontend/src/components/FilterSort.jsx:30 | writes to two different entries commute |
| FilterSort.NextSort | frontend/src/components/FilterSort.jsx:40-45 | a click sorts by the clicked field |
| FilterSort.SortClicks | frontend/src/components/FilterSort.jsx:38-50 | clicking the active field flips the direction; a new field starts ascending, and a second click makes it descending |
| FilterSort.CountTrue | frontend/src/components/FilterSort.jsx:70-75 | `filter(Boolean).length` is the number of true flags, so at most the number of flags and positive iff some flag holds |
| FilterSort.CountTrueAppend | frontend/src/components/FilterSort.jsx:70-75 | the count over two lists joined is the sum of their counts |
| FilterSort.CountTrueSingle | frontend/src/components/FilterSort.jsx:70-75 | one flag counts 1 when it holds and 0 otherwise |
| FilterSort.ActiveFilterCount | frontend/src/components/FilterSort.jsx:64-75 | the badge is the number of the four conditions that hold (a search text, a stock status, a price range, an author), so at most 4, and positive exactly when the "Clear" button is shown |
| FilterSort.AllFourActive | frontend/src/components/FilterSort.jsx:70-75 | with all four entries active the badge reads 4 |
| FilterSort.FilterSortBar.constructor | frontend/src/components/FilterSort.jsx:13-23 | the panel starts with the cleared filters and title ascending, showing no active filter |
| FilterSort.FilterSortBar.HandleFilterChange | frontend/src/components/FilterSort.jsx:28-35 | one entry is replaced, and the panel's new record is what the page receives |
| FilterSort.FilterSortBar.HandleSortChange | frontend/src/components/FilterSort.jsx:38-50 | the next sort record is stored and passed to the page; filters are kept |
| FilterSort.FilterSortBar.ClearFilters | frontend/src/components/FilterSort.jsx:53-62 | the filters are cleared and passed on, the sort is kept, and the badge reads 0 |
| BookForm.ValidateField | frontend/src/components/BookForm.jsx:78-103 | a field name outside the four known ones always passes |
| BookForm.ValidateFieldAccepts | frontend/src/components/BookForm.jsx:78-103 | a field has no message iff its value is of a kind the field accepts (for example, qty must be a non-negative whole number) |
| BookForm.RuleOrder | frontend/src/components/BookForm.jsx:80-99 | the first failing rule speaks: -1.5 copies is "negative", 2.5 is "not whole", a price of 0 passes, a one-letter title is "too short", a title of 0 is "required" |
| BookForm.NoErrorsIffValid | frontend/src/components/BookForm.jsx:106-114 | the error map is empty iff every field passes |
| BookForm.ErrorsOverStep | frontend/src/components/BookForm.jsx:108-111 | visiting one more key adds exactly that key's message, if it has one |
| BookForm.CollectErrors | frontend/src/components/BookForm.jsx:106-113 | the key loop yields one entry per failing field, and none iff the draft is valid |
| BookForm.EventValue | frontend/src/components/BookForm.jsx:125-126 | a number input always delivers a number |
| BookForm.HandleChange | frontend/src/components/BookForm.jsx:123-133 | the named field takes the event's value and every other field is kept |
| BookForm.NumberInputsAreNeverBlank | frontend/src/components/BookForm.jsx:125-126 | a value from a number input never gets a "required" message for price or quantity, and a cleared one becomes a valid 0 |
| BookForm.DraftOf | frontend/src/pages/EditBook.jsx:43-48 | a loaded book's draft has exactly the four form fields |
| BookForm.DraftOfValid | frontend/src/pages/EditBook.jsx:43-50 | a loaded book's draft is valid iff title and author have 2 or more characters and price and quantity are not negative |
| BookForm.EmptyDraftErrors | frontend/src/pages/AddBook.jsx:12-17 | the blank draft fails on title and author only, so it is not valid |
| BookForm.NegativePriceDraft | frontend/src/components/BookForm.jsx:80-92 | one-letter title and author and a negative price are each reported, and the 0 quantity passes |
| BookForm.FormState.constructor | frontend/src/components/BookForm.jsx:74-75 | no errors and no touched field at first |
| BookForm.FormState.ValidateForm | frontend/src/components/BookForm.jsx:106-114 | the error map is recomputed and reported valid iff empty; a message is shown iff its field is touched and fails (BookForm.jsx:176-221) |
| BookForm.FormState.HandleBlur | frontend/src/components/BookForm.jsx:136-144 | leaving a field marks it touched, which shows its message if it has one |
| BookForm.HandleSubmit | frontend/src/components/BookForm.jsx:147-155 | the draft goes to the page, unchanged, exactly when the form is valid |
| BookStores.FailureMessage | frontend/src/stores/BookStores.jsx:45-50 | a status failure always has a non-empty message; a thrown error keeps its own |
| BookStores.HandleApiError | frontend/src/stores/BookStores.jsx:18-24 | the result is the connection text, the message or the default; it is the connection text whenever the message holds "Failed to fetch", and empty only if both inputs are |
| BookStores.OtherMessagesPassThrough | frontend/src/stores/BookStores.jsx:18-24 | a non-empty message without "Failed to fetch" is shown as it is |
| BookStores.EmptyMessageGivesDefault | frontend/src/stores/BookStores.jsx:18-24 | an empty message gives the action's default text |
| BookStores.NetworkFailureIsConnectionProblem | frontend/src/stores/BookStores.jsx:20-21 | a thrown error with the message "Failed to fetch" (Chromium's network error) is reported as a connection problem by every action |
| BookStores.StatusTextsAreNotNetworkFailures | frontend/src/stores/BookStores.jsx:48 | none of the four `HTTP <status>:` texts holds "Failed to fetch" |
| BookStores.StatusFailuresKeepTheirCode | frontend/src/stores/BookStores.jsx:45-50 | a status failure without a body message is shown as `HTTP <status>: <text>`, never as a connection problem or the default text |
| BookStores.RemoveById | frontend/src/stores/BookStores.jsx:107 | the remaining books are exactly those with another id |
| BookStores.RemoveByIdSingle | frontend/src/stores/BookStores.jsx:107 | a one-book list keeps its book exactly when the id differs |
| BookStores.RemoveByIdAppend | frontend/src/stores/BookStores.jsx:107 | the survivors of `a + b` are those of `a` followed by those of `b`; with the one-book case this fixes the result, so the kept books stay in order |
| BookStores.RemoveByIdCounts | frontend/src/stores/BookStores.jsx:107 | every book with another id keeps all its copies; the deleted id keeps none |
| BookStores.RemoveAbsentId | frontend/src/stores/BookStores.jsx:107 | deleting an id no book carries leaves the list unchanged |
| BookStores.RemoveByIdIdempotent | frontend/src/stores/BookStores.jsx:107 | deleting twice is deleting once |
| BookStores.RemoveAppended | frontend/src/stores/BookStores.jsx:55 | deleting a book just appended under a fresh id restores the list |
| BookStores.ReplaceById | frontend/src/stores/BookStores.jsx:177-181 | each position holds the new record iff its id equals the parsed route id, and the old book otherwise |
| BookStores.ReplaceAbsentId | frontend/src/stores/BookStores.jsx:177-181 | an unparsable or unknown route id leaves the list unchanged |
| BookStores.ReplaceKeepsIds | frontend/src/stores/BookStores.jsx:177-181 | when the backend echoes the id, every position keeps its id |
| BookStores.BooksStore.constructor | frontend/src/stores/BookStores.jsx:5-12 | empty list, nothing loaded, no flags set, no errors |
| BookStores.BooksStore.BooksCount | frontend/src/stores/BookStores.jsx:15 | `booksCount` is the length of the list |
| BookStores.BooksStore.AddBook | frontend/src/stores/BookStores.jsx:27-65 | a delivered record is appended; a failure sets `addBookError` and rejects with the raw message; the flag ends false and the other state is kept |
| BookStores.BooksStore.FetchBooksAsWritten | frontend/src/stores/BookStores.jsx:67-83 | every call rejects with the undeclared-client error and leaves the list as it was |
| BookStores.BooksStore.FetchBooks | frontend/src/stores/BookStores.jsx:67-83 | rows replace the list; a query error is stored, or "Failed to fetch books" when it is empty; loading ends false |
| BookStores.BooksStore.DeleteBook | frontend/src/stores/BookStores.jsx:85-115 | on success no book with that id remains and all others stay; on failure the list is kept and `error` set |
| BookStores.BooksStore.FetchBookById | frontend/src/stores/BookStores.jsx:117-142 | the loaded book is cleared, then set only from a delivered record; a failure sets `error` |
| BookStores.BooksStore.UpdateBook | frontend/src/stores/BookStores.jsx:144-198 | on success the record replaces the books, and the loaded book, whose id equals the parsed id; on failure only `updateBookError` changes |
| BookStores.BooksStore.SetError | frontend/src/stores/BookStores.jsx:236 | `error` takes the given text |
| BookStores.BooksStore.ClearError | frontend/src/stores/BookStores.jsx:203 | `error` becomes empty |
| BookStores.BooksStore.ClearAddBookError | frontend/src/stores/BookStores.jsx:201 | `addBookError` becomes empty |
| BookStores.BooksStore.ClearUpdateBookError | frontend/src/stores/BookStores.jsx:202 | `updateBookError` becomes empty |
| BooksList.BadgeIsConsistent | frontend/src/components/BooksList.jsx:103-124 | label, dot colour and text colour each identify the stock level, so a card never mixes them |
| BooksList.BadgeVersusStockFilter | frontend/src/components/BooksList.jsx:103-124 | the badge and the stock filter agree for every non-negative quantity except 10, which the filter calls in stock and the badge low |
| BooksList.EditLinkRoundTrip | frontend/src/components/BooksList.jsx:13-15 | the edit link's route id parses back to the card's book id |
| BooksList.CardOf | frontend/src/components/BooksList.jsx:63-159 | a card carries its book, the badge of its quantity, the edit path with its id, and a delete button disabled and spinning exactly while loading |
| BooksList.Render | frontend/src/components/BooksList.jsx:18-65 | 8 placeholders while loading, the hint for an empty list, otherwise a grid with exactly one card per book, in the order given |
| BooksList.NoCardShowsSpinner | frontend/src/components/BooksList.jsx:141-159 | drawn cards always have an enabled delete button without the spinner |
| Index.CountOf | frontend/src/pages/Index.jsx:55-59 | a counter never exceeds the list and is 0 iff no book matches it |
| Index.CountOfSingle | frontend/src/pages/Index.jsx:55-59 | a one-book list counts 1 exactly when the counter's condition holds, for every counter including the in-stock one as written (`qty > 10`) |
| Index.CountOfAppend | frontend/src/pages/Index.jsx:55-59 | a counter over two lists joined is the sum of the two counts, so each counter is the number of its matching books |
| Index.CountersPartition | frontend/src/pages/Index.jsx:55-59 | with "10 or more" in stock and no negative quantity, the three counters add up to the list |
| Index.CountersPartitionOfShown | frontend/src/pages/Index.jsx:55-59 | the same holds for any list drawn from a store without negative quantities |
| Index.AsWrittenCountersAtMostAll | frontend/src/pages/Index.jsx:55-59 | the counters as written never count a book twice |
| Index.TenCopiesCountedNowhere | frontend/src/pages/Index.jsx:55 | a book with exactly 10 copies is in none of the written counters, and in the corrected in-stock one |
| Index.NegativeCountedNowhere | frontend/src/pages/Index.jsx:55-59 | a book with a negative quantity is in no counter, as written or corrected |
| Index.CounterMatchesFilter | frontend/src/pages/Index.jsx:55-59 | each corrected counter equals the number of books its stock filter keeps |
| Index.IndexPage.constructor | frontend/src/pages/Index.jsx:11-26 | an empty store, default hook and panel, no toast |
| Index.IndexPage.Area | frontend/src/pages/Index.jsx:245-283 | the spinner exactly while a first load runs, the "no match" notice exactly when the store has books but none passes, otherwise the list component on the filtered books, a grid of all of them once loaded |
| Index.IndexPage.FilteredCount | frontend/src/pages/Index.jsx:117-125 | the count shown never exceeds the total |
| Index.IndexPage.StockCountersAsWritten | frontend/src/pages/Index.jsx:55-59 | the written counters add up to at most the number of books shown |
| Index.IndexPage.StockCounters | frontend/src/pages/Index.jsx:55-59 | the corrected counters add up to the filtered count when no quantity is negative |
| Index.IndexPage.HandleLoadBooksAsWritten | frontend/src/pages/Index.jsx:32-39 | the load always fails: the list is kept, the error toast is shown, the panel remounts |
| Index.IndexPage.HandleLoadBooks | frontend/src/pages/Index.jsx:32-39 | loaded rows replace the list with a success toast; a failure shows the error toast; the panel remounts with the defaults |
| Index.IndexPage.HandleDeleteBook | frontend/src/pages/Index.jsx:41-48 | a delete removes the id with a success toast, or keeps the list with an error toast; the panel remounts |
| Index.IndexPage.ChangeFilter | frontend/src/pages/Index.jsx:182-188 | panel and hook hold the same new record, built from the panel's old one |
| Index.IndexPage.ClickSort | frontend/src/pages/Index.jsx:182-188 | panel and hook hold the next sort record, computed from the panel's copy |
| Index.IndexPage.ClearFilters | frontend/src/pages/Index.jsx:182-188 | both copies of the filters are cleared and the reset button disappears |
| Index.IndexPage.ResetAllFilters | frontend/src/pages/Index.jsx:99-106 | the hook returns to its defaults while the panel keeps its own filters and sort |
| Index.IndexPage.CloseToast | frontend/src/pages/Index.jsx:287-292 | the toast is dismissed |
| EditBook.EditBookPage.constructor | frontend/src/pages/EditBook.jsx:21-38 | a blank draft, an empty snapshot and not valid, which already counts as a change |
| EditBook.EditBookPage.Revalidate | frontend/src/components/BookForm.jsx:117-120 | the page's `valid` becomes the form's verdict on the draft |
| EditBook.EditBookPage.SyncFromStore | frontend/src/pages/EditBook.jsx:41-52 | a loaded book becomes both the draft and the snapshot, with no change pending |
| EditBook.EditBookPage.Mount | frontend/src/pages/EditBook.jsx:55-63 | no route id leads home; a delivered book fills the form; a failure hides it |
| EditBook.EditBookPage.Edit | frontend/src/pages/EditBook.jsx:131-136 | the draft takes the change, the snapshot is kept, validity follows the draft |
| EditBook.EditBookPage.Submit | frontend/src/pages/EditBook.jsx:66-75 | an update is sent iff the draft is valid and differs from the snapshot; success replaces the book and leads home, failure shows the alert |
| EditBook.EditBookPage.DismissUpdateErrorAsWritten | frontend/src/pages/EditBook.jsx:81-83 | the dismiss button clears `error`, so the update alert stays |
| EditBook.EditBookPage.DismissUpdateError | frontend/src/pages/EditBook.jsx:166-188 | the corrected dismiss hides the alert and keeps the rest |
| AddBook.AddBookPage.constructor | frontend/src/pages/AddBook.jsx:7-20 | blank draft, not valid, fresh store |
| AddBook.AddBookPage.Revalidate | frontend/src/components/BookForm.jsx:117-120 | the page's `valid` becomes the form's verdict on the draft |
| AddBook.AddBookPage.Edit | frontend/src/pages/AddBook.jsx:88-93 | the draft takes the change and validity follows it |
| AddBook.AddBookPage.Submit | frontend/src/pages/AddBook.jsx:23-41 | a valid draft is sent; success appends the book, clears the draft (now invalid) and leads home; failure keeps the draft and shows `addBookError` |
| ApiConfig.Environment | frontend/src/config/api.js:12 | the environment name is never empty |
| ApiConfig.BaseUrlFor | frontend/src/config/api.js:2-15 | a base URL exists exactly for "development" and "production" |
| ApiConfig.EnvironmentSelection | frontend/src/config/api.js:2-15 | with no `NODE_ENV` the development server is used; another name has no entry |
| ApiConfig.BuildApiUrl | frontend/src/config/api.js:18-22 | the URL starts with the base and one "/", and is one character shorter when the endpoint had a leading slash |
| ApiConfig.EndpointRoundTrip | frontend/src/config/api.js:18-22 | the endpoint can be read back from the URL, less its one leading slash |
| ApiConfig.LeadingSlashOptional | frontend/src/config/api.js:20 | a leading slash on the endpoint makes no difference |
| ApiConfig.OnlyOneSlashStripped | frontend/src/config/api.js:20 | only one slash is removed, so a doubled slash survives |
| ApiConfig.ProductionDoubleSlash | frontend/src/config/api.js:7 | the production base ends in "/", so its URLs carry "//" before the endpoint |

## Left out

- Network I/O: `fetch`, `response.json()`, HTTP headers and request bodies. Each reply is an input of the action that awaits it. The `Number(...)` conversion of the request body is not modelled, because the model never builds a body.
- The database client of frontend/src/supabaseClient.js: its query result is an input of `FetchBooks`.
- The backend (backend/) is not part of this model.
- Interleaving of concurrent requests, React's batching of state updates, and stale closures. An action runs to completion in one call, so the intermediate `loading = true` render is not a state of the model.
- Rendering, styles, the `showAdvanced` toggle, the percentage and "Sorted by" texts, the toast's timer, routing and the Layout and App components. Only what decides visible content is modelled: the books area, the badge, the cards, the reset button, the form and alert conditions.
- `console.error` logging.
- Floating point: prices are `real`, so `toFixed(2)`, NaN and `parseFloat` of non-numeric text are not modelled. The sort reads numeric fields directly instead of through `parseFloat(v) || 0`.
- Case folding and substring search cover ASCII only. Unicode `toLowerCase` is not modelled.
- JavaScript values of unexpected types are not modelled: a string id or quantity from the backend, a book with a missing title, numeric strings in the form. `FieldValue.Text` holding digits is compared as a non-number.
- Common.ParseInt: leading whitespace, which `parseInt` skips, is not modelled, since route ids carry none. Values are exact integers, where JavaScript rounds beyond 2^53.
- BookForm.ValidateField and BookForm.DraftOfValid: string lengths count Unicode code points, where `val.length` counts UTF-16 code units. A title of one emoji is one character here and two in the program.
- UseFilterSort.LexLess and UseFilterSort.KeyOf: text keys are ordered by code point, where JavaScript's `<` compares UTF-16 code units. The two orders differ only between characters above U+FFFF and characters from U+E000 to U+FFFF.
- Engine-dependent error texts: "Failed to fetch" is Chromium's network-failure message, and "supabase is not defined" is the V8 and SpiderMonkey wording of the reference error. Firefox's and Safari's network messages and Safari's reference-error message are not modelled. `handleApiError` shows those as they are, not as the connection text.
- The comparator's order between a numeric and a text key. One sort field always yields keys of one kind, so the choice made in `KeyLess` is never used.
- The store's request URLs are hard-coded and do not use `buildApiUrl`. The URL text of each request is not modelled.
- `JSON.stringify` comparison in `EditBook.HasChanges` is modelled as equality of drafts. Both drafts are built with the same key order, so the texts differ exactly when the drafts do.

## Findings

| source | as written | input that shows it | evidently intended | confidence | as-written member | corrected member |
|---|---|---|---|---|---|---|
| frontend/src/stores/BookStores.jsx:72 | `fetchBooks` queries `supabase`, a name the file never imports or declares, so every call throws a ReferenceError, stores its message as `error` and rejects | any click on "Refresh Books", or the page's first mount | query the database client and store the rows | not executed | BookStores.BooksStore.FetchBooksAsWritten, Index.IndexPage.HandleLoadBooksAsWritten | BookStores.BooksStore.FetchBooks, Index.IndexPage.HandleLoadBooks |
| frontend/src/pages/EditBook.jsx:81-83 | the dismiss button of the "Update Failed" alert (line 180) clears the store's `error`, but the alert is shown while `updateBookError` is set, so it never closes | an update that fails with any message, then a click on the alert's close button | clear `updateBookError` | not executed | EditBook.EditBookPage.DismissUpdateErrorAsWritten | EditBook.EditBookPage.DismissUpdateError |
| frontend/src/pages/Index.jsx:55 | the "In Stock (10+)" counter (label at line 135) counts `qty > 10`, so a book with exactly 10 copies is in no counter, and the counters no longer split the list | one book with qty 10: counters read 0, 0, 0 while one book is shown | count `qty >= 10`, as the label and the in-stock filter do | not executed | Index.TenCopiesCountedNowhere, Index.IndexPage.StockCountersAsWritten | Index.CountersPartition, Index.IndexPage.StockCounters |
