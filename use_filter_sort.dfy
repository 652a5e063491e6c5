/**
  The filter/sort hook of the book list page: a pure pipeline from a list of
  books, four filter settings and a sort setting to an ordered sub-list, and
  the two state records the hook keeps.
*/
module UseFilterSort {
  import opened Common

  datatype Filters = Filters(search: string, stockStatus: string, priceRange: string, author: string)

  const DefaultFilters := Filters("", "all", "all", "")

  datatype SortField = Title | Author | Price | Qty | Id

  datatype Direction = Asc | Desc

  datatype SortConfig = SortConfig(field: SortField, direction: Direction)

  const DefaultSort := SortConfig(Title, Asc)

  // ===========================================================================
  // Filtering
  // ===========================================================================

  /** The stock-status switch: true when the case's guard sends the book away. */
  predicate StockRejects(status: string, qty: int) {
    if status == "inStock" then qty < 10
    else if status == "lowStock" then qty == 0 || qty >= 10
    else if status == "outOfStock" then qty > 0
    else false
  }

  /** The price-range switch: true when the case's guard sends the book away. */
  predicate PriceRejects(range: string, price: real) {
    if range == "under10" then price >= 10.0
    else if range == "10to50" then price < 10.0 || price > 50.0
    else if range == "over50" then price <= 50.0
    else false
  }

  /** The filter callback, with its early returns in source order. */
  predicate Keep(f: Filters, b: Book) {
    if f.search != "" && !Includes(Lower(b.title), Lower(f.search))
                      && !Includes(Lower(b.author), Lower(f.search)) then false
    else if f.stockStatus != "all" && StockRejects(f.stockStatus, b.qty) then false
    else if f.priceRange != "all" && PriceRejects(f.priceRange, b.price) then false
    else if f.author != "" && !Includes(Lower(b.author), Lower(f.author)) then false
    else true
  }

  // The same filters stated band by band, independently of the switch above.

  predicate InStockBand(qty: int) { qty >= 10 }
  predicate LowStockBand(qty: int) { qty < 10 && qty != 0 }
  predicate OutOfStockBand(qty: int) { qty <= 0 }

  predicate Under10Band(price: real) { price < 10.0 }
  predicate From10To50Band(price: real) { 10.0 <= price <= 50.0 }
  predicate Over50Band(price: real) { price > 50.0 }

  predicate SearchPasses(search: string, b: Book) {
    search == "" || Includes(Lower(b.title), Lower(search)) || Includes(Lower(b.author), Lower(search))
  }

  /** An unrecognised status keeps every book. */
  predicate StockPasses(status: string, qty: int) {
    && (status == "inStock" ==> InStockBand(qty))
    && (status == "lowStock" ==> LowStockBand(qty))
    && (status == "outOfStock" ==> OutOfStockBand(qty))
  }

  /** An unrecognised range keeps every book. */
  predicate PricePasses(range: string, price: real) {
    && (range == "under10" ==> Under10Band(price))
    && (range == "10to50" ==> From10To50Band(price))
    && (range == "over50" ==> Over50Band(price))
  }

  predicate AuthorPasses(author: string, b: Book) {
    author == "" || Includes(Lower(b.author), Lower(author))
  }

  /** A book is kept iff it passes each of the four filters on its own. */
  lemma KeepIsConjunction(f: Filters, b: Book)
    ensures Keep(f, b) <==>
      SearchPasses(f.search, b) && StockPasses(f.stockStatus, b.qty) &&
      PricePasses(f.priceRange, b.price) && AuthorPasses(f.author, b)
  {
  }

  /**
   * The stock filter on a negative quantity: "lowStock", offered as
   * "Low Stock (1-9)", keeps it, and so does "outOfStock", whose counter on
   * the inventory page counts only a quantity of exactly 0.
   */
  lemma NegativeStockFilters(b: Book)
    requires b.qty < 0
    ensures Keep(Filters("", "lowStock", "all", ""), b) && Keep(Filters("", "outOfStock", "all", ""), b)
    ensures !Keep(Filters("", "inStock", "all", ""), b)
  {
  }

  /** Every real price lies in exactly one of the three price bands. */
  lemma PriceBandsPartition(price: real)
    ensures (if Under10Band(price) then 1 else 0) + (if From10To50Band(price) then 1 else 0)
          + (if Over50Band(price) then 1 else 0) == 1
  {
  }

  /** `books.filter(Keep)`: the kept books, in input order. */
  function FilterBooks(books: seq<Book>, f: Filters): (r: seq<Book>)
    ensures |r| <= |books|
    ensures forall b :: multiset(r)[b] == if Keep(f, b) then multiset(books)[b] else 0
    ensures forall b :: b in r <==> b in books && Keep(f, b)
  {
    if books == [] then []
    else
      var rest := FilterBooks(books[1..], f);
      assert books == [books[0]] + books[1..];
      if Keep(f, books[0]) then [books[0]] + rest else rest
  }

  /** With the default filters nothing is filtered out. */
  lemma {:induction false} DefaultFiltersKeepAll(books: seq<Book>)
    ensures FilterBooks(books, DefaultFilters) == books
  {
    if books != [] {
      DefaultFiltersKeepAll(books[1..]);
      assert books == [books[0]] + books[1..];
    }
  }

  /** Filtering a list whose every book passes returns it unchanged. */
  lemma {:induction false} FilterAllKept(books: seq<Book>, f: Filters)
    requires forall b :: b in books ==> Keep(f, b)
    ensures FilterBooks(books, f) == books
  {
    if books != [] {
      assert books[0] in books;
      FilterAllKept(books[1..], f);
      FilterHead(books, f);
      assert books == [books[0]] + books[1..];
    }
  }

  /** The first book stays in front of the filtered rest when it passes and is dropped otherwise. */
  lemma FilterHead(books: seq<Book>, f: Filters)
    requires books != []
    ensures FilterBooks(books, f) == (if Keep(f, books[0]) then [books[0]] else []) + FilterBooks(books[1..], f)
  {
  }

  /** A one-book list keeps its book exactly when it passes. */
  lemma FilterBooksSingle(b: Book, f: Filters)
    ensures FilterBooks([b], f) == if Keep(f, b) then [b] else []
  {
    FilterHead([b], f);
    assert [b][1..] == [];
  }

  /**
   * Filtering two lists joined is filtering each one, so the kept books keep
   * their order; with `FilterBooksSingle` this fixes the result.
   */
  lemma {:induction false} FilterBooksAppend(a: seq<Book>, b: seq<Book>, f: Filters)
    ensures FilterBooks(a + b, f) == FilterBooks(a, f) + FilterBooks(b, f)
  {
    if a == [] {
      assert a + b == b;
    } else {
      var ab := a + b;
      assert ab[0] == a[0] && ab[1..] == a[1..] + b;
      FilterHead(ab, f);
      FilterHead(a, f);
      FilterBooksAppend(a[1..], b, f);
      JoinAfterHead(FilterBooks(ab, f), FilterBooks(a, f), if Keep(f, a[0]) then [a[0]] else [],
                    FilterBooks(a[1..], f), FilterBooks(b, f));
    }
  }

  /** `r == h + (x + y)` and `s == h + x` give `r == s + y`. */
  lemma JoinAfterHead<T>(r: seq<T>, s: seq<T>, h: seq<T>, x: seq<T>, y: seq<T>)
    requires r == h + (x + y) && s == h + x
    ensures r == s + y
  {
  }

  // ===========================================================================
  // Sort keys and the comparator
  // ===========================================================================

  /** A sort key: numeric for price, qty and id; lower-cased text for title and author. */
  datatype Key = NumKey(n: real) | TextKey(s: string)

  function KeyOf(field: SortField, b: Book): Key {
    match field
    case Title => TextKey(Lower(b.title))
    case Author => TextKey(Lower(b.author))
    case Price => NumKey(b.price)
    case Qty => NumKey(b.qty as real)
    case Id => NumKey(b.id as real)
  }

  /** JavaScript's `<` on strings: a proper prefix is smaller, else the first differing character decides. */
  predicate LexLess(a: string, b: string)
    decreases |a|
  {
    if |a| == 0 then |b| > 0
    else if |b| == 0 then false
    else if a[0] != b[0] then a[0] < b[0]
    else LexLess(a[1..], b[1..])
  }

  lemma {:induction false} LexIrreflexive(a: string)
    ensures !LexLess(a, a)
    decreases |a|
  {
    if |a| > 0 { LexIrreflexive(a[1..]); }
  }

  lemma {:induction false} LexAsymmetric(a: string, b: string)
    ensures !(LexLess(a, b) && LexLess(b, a))
    decreases |a|
  {
    if |a| > 0 && |b| > 0 && a[0] == b[0] { LexAsymmetric(a[1..], b[1..]); }
  }

  lemma {:induction false} LexTransitive(a: string, b: string, c: string)
    requires LexLess(a, b) && LexLess(b, c)
    ensures LexLess(a, c)
    decreases |a|
  {
    if |a| > 0 && |b| > 0 && |c| > 0 && a[0] == b[0] && b[0] == c[0] {
      LexTransitive(a[1..], b[1..], c[1..]);
    }
  }

  lemma {:induction false} LexTotal(a: string, b: string)
    ensures a == b || LexLess(a, b) || LexLess(b, a)
    decreases |a|
  {
    if |a| > 0 && |b| > 0 && a[0] == b[0] {
      LexTotal(a[1..], b[1..]);
      if a[1..] == b[1..] {
        assert a == [a[0]] + a[1..] && b == [b[0]] + b[1..];
      }
    }
  }

  /**
    Strict order on keys. Keys of one sort field always have the same kind;
    the order between a numeric and a text key is fixed only to make the
    relation total.
  */
  predicate KeyLess(x: Key, y: Key) {
    match (x, y)
    case (NumKey(m), NumKey(n)) => m < n
    case (TextKey(s), TextKey(t)) => LexLess(s, t)
    case (NumKey(_), TextKey(_)) => true
    case (TextKey(_), NumKey(_)) => false
  }

  lemma KeyLessAsymmetric(x: Key, y: Key)
    ensures !(KeyLess(x, y) && KeyLess(y, x))
  {
    if x.TextKey? && y.TextKey? { LexAsymmetric(x.s, y.s); }
  }

  lemma KeyLessIrreflexive(x: Key)
    ensures !KeyLess(x, x)
  {
    if x.TextKey? { LexIrreflexive(x.s); }
  }

  lemma KeyLessTransitive(x: Key, y: Key, z: Key)
    requires KeyLess(x, y) && KeyLess(y, z)
    ensures KeyLess(x, z)
  {
    if x.TextKey? && y.TextKey? && z.TextKey? { LexTransitive(x.s, y.s, z.s); }
  }

  lemma KeyLessTotal(x: Key, y: Key)
    ensures x == y || KeyLess(x, y) || KeyLess(y, x)
  {
    if x.TextKey? && y.TextKey? { LexTotal(x.s, y.s); }
  }

  /** The comparator's verdict on two keys: negative when the first goes first. */
  function CompareKeys(dir: Direction, ka: Key, kb: Key): int {
    if KeyLess(ka, kb) then (if dir == Asc then -1 else 1)
    else if KeyLess(kb, ka) then (if dir == Asc then 1 else -1)
    else 0
  }

  /** The comparator handed to `Array.prototype.sort`. */
  function Compare(cfg: SortConfig, a: Book, b: Book): int {
    CompareKeys(cfg.direction, KeyOf(cfg.field, a), KeyOf(cfg.field, b))
  }

  /** Ties are exactly equal keys; otherwise the smaller key goes first ascending and last descending. */
  lemma CompareMeaning(dir: Direction, ka: Key, kb: Key)
    ensures CompareKeys(dir, ka, kb) == 0 <==> ka == kb
    ensures CompareKeys(dir, ka, kb) < 0 <==> (if dir == Asc then KeyLess(ka, kb) else KeyLess(kb, ka))
  {
    KeyLessTotal(ka, kb);
    KeyLessAsymmetric(ka, kb);
    KeyLessIrreflexive(ka);
  }

  /** The comparator is antisymmetric. */
  lemma CompareAntisymmetric(dir: Direction, ka: Key, kb: Key)
    ensures CompareKeys(dir, ka, kb) == -CompareKeys(dir, kb, ka)
  {
    KeyLessAsymmetric(ka, kb);
  }

  /** "Not after" is transitive. */
  lemma CompareTransitive(dir: Direction, ka: Key, kb: Key, kc: Key)
    requires CompareKeys(dir, ka, kb) <= 0 && CompareKeys(dir, kb, kc) <= 0
    ensures CompareKeys(dir, ka, kc) <= 0
  {
    KeyLessTotal(ka, kb);
    KeyLessTotal(kb, kc);
    KeyLessAsymmetric(ka, kb);
    KeyLessAsymmetric(kb, kc);
    KeyLessAsymmetric(ka, kc);
    if KeyLess(ka, kb) && KeyLess(kb, kc) { KeyLessTransitive(ka, kb, kc); }
    if KeyLess(kb, ka) && KeyLess(kc, kb) { KeyLessTransitive(kc, kb, ka); }
  }

  // ===========================================================================
  // Stable sort
  // ===========================================================================

  /** Every earlier book compares as "not after" every later one. */
  ghost predicate Sorted(cfg: SortConfig, s: seq<Book>) {
    forall i, j :: 0 <= i < j < |s| ==> Compare(cfg, s[i], s[j]) <= 0
  }

  /** The books of `s` whose key for `field` is `k`, in the order of `s`. */
  function WithKey(field: SortField, k: Key, s: seq<Book>): seq<Book>
  {
    if s == [] then []
    else (if KeyOf(field, s[0]) == k then [s[0]] else []) + WithKey(field, k, s[1..])
  }

  /** A sort is stable when, for every key, the books with that key keep their relative order. */
  ghost predicate StableOf(field: SortField, r: seq<Book>, s: seq<Book>) {
    forall k :: WithKey(field, k, r) == WithKey(field, k, s)
  }

  /** Inserts `x` in front of the first book of `t` that does not compare before it. */
  function Insert(cfg: SortConfig, x: Book, t: seq<Book>): (r: seq<Book>)
    ensures |r| == |t| + 1
    ensures multiset(r) == multiset(t) + multiset{x}
  {
    if t == [] then [x]
    else if Compare(cfg, t[0], x) < 0 then
      assert t == [t[0]] + t[1..];
      [t[0]] + Insert(cfg, x, t[1..])
    else [x] + t
  }

  /** `[...filtered].sort(Compare(cfg))`, as a stable insertion sort. */
  function SortBooks(cfg: SortConfig, s: seq<Book>): (r: seq<Book>)
    ensures |r| == |s|
    ensures multiset(r) == multiset(s)
  {
    if s == [] then []
    else
      assert s == [s[0]] + s[1..];
      Insert(cfg, s[0], SortBooks(cfg, s[1..]))
  }

  /** A book that goes before every book of a sorted list can head it. */
  lemma ConsSorted(cfg: SortConfig, x: Book, t: seq<Book>)
    requires Sorted(cfg, t)
    requires forall j :: 0 <= j < |t| ==> Compare(cfg, x, t[j]) <= 0
    ensures Sorted(cfg, [x] + t)
  {
    var out := [x] + t;
    forall i, j | 0 <= i < j < |out| ensures Compare(cfg, out[i], out[j]) <= 0 {
      assert out[j] == t[j - 1];
      if i > 0 { assert out[i] == t[i - 1]; }
    }
  }

  lemma InsertMembers(cfg: SortConfig, x: Book, t: seq<Book>, j: int)
    requires 0 <= j < |t| + 1
    ensures Insert(cfg, x, t)[j] == x || Insert(cfg, x, t)[j] in t
  {
    var r := Insert(cfg, x, t);
    assert r[j] in multiset(r);
  }

  lemma {:induction false} InsertSorted(cfg: SortConfig, x: Book, t: seq<Book>)
    requires Sorted(cfg, t)
    ensures Sorted(cfg, Insert(cfg, x, t))
  {
    var dir, f := cfg.direction, cfg.field;
    if t == [] {
    } else if Compare(cfg, t[0], x) < 0 {
      var rest := t[1..];
      InsertSorted(cfg, x, rest);
      var r := Insert(cfg, x, rest);
      forall j | 0 <= j < |r| ensures Compare(cfg, t[0], r[j]) <= 0 {
        InsertMembers(cfg, x, rest, j);
        if r[j] != x {
          var k :| 0 <= k < |rest| && rest[k] == r[j];
          assert t[k + 1] == r[j];
        }
      }
      ConsSorted(cfg, t[0], r);
    } else {
      CompareAntisymmetric(dir, KeyOf(f, t[0]), KeyOf(f, x));
      forall j | 0 <= j < |t| ensures Compare(cfg, x, t[j]) <= 0 {
        if j > 0 { CompareTransitive(dir, KeyOf(f, x), KeyOf(f, t[0]), KeyOf(f, t[j])); }
      }
      ConsSorted(cfg, x, t);
    }
  }

  /** The sorted output is ordered by the comparator. */
  lemma {:induction false} SortBooksSorted(cfg: SortConfig, s: seq<Book>)
    ensures Sorted(cfg, SortBooks(cfg, s))
  {
    if s != [] {
      SortBooksSorted(cfg, s[1..]);
      InsertSorted(cfg, s[0], SortBooks(cfg, s[1..]));
    }
  }

  /** Ascending output is non-decreasing by key; descending output is non-increasing. */
  lemma SortedMeansOrderedByKey(cfg: SortConfig, s: seq<Book>, i: int, j: int)
    requires Sorted(cfg, s) && 0 <= i < j < |s|
    ensures cfg.direction == Asc ==> !KeyLess(KeyOf(cfg.field, s[j]), KeyOf(cfg.field, s[i]))
    ensures cfg.direction == Desc ==> !KeyLess(KeyOf(cfg.field, s[i]), KeyOf(cfg.field, s[j]))
  {
    assert Compare(cfg, s[i], s[j]) <= 0;
    KeyLessAsymmetric(KeyOf(cfg.field, s[i]), KeyOf(cfg.field, s[j]));
  }

  /** A book that compares strictly before another has a different key. */
  lemma BeforeMeansOtherKey(cfg: SortConfig, a: Book, b: Book)
    requires Compare(cfg, a, b) < 0
    ensures KeyOf(cfg.field, a) != KeyOf(cfg.field, b)
  {
    CompareMeaning(cfg.direction, KeyOf(cfg.field, a), KeyOf(cfg.field, b));
  }

  /** The books of a key in `[y] + t`. */
  lemma WithKeyCons(field: SortField, k: Key, y: Book, t: seq<Book>)
    ensures WithKey(field, k, [y] + t) == (if KeyOf(field, y) == k then [y] else []) + WithKey(field, k, t)
  {
    assert ([y] + t)[1..] == t;
  }

  lemma {:induction false} InsertStable(cfg: SortConfig, x: Book, t: seq<Book>, k: Key)
    ensures WithKey(cfg.field, k, Insert(cfg, x, t))
         == (if KeyOf(cfg.field, x) == k then [x] else []) + WithKey(cfg.field, k, t)
  {
    if t == [] {
    } else if Compare(cfg, t[0], x) < 0 {
      InsertStable(cfg, x, t[1..], k);
      BeforeMeansOtherKey(cfg, t[0], x);
      InsertStablePast(cfg, x, t, k);
    } else {
      WithKeyCons(cfg.field, k, x, t);
    }
  }

  /** The step of `InsertStable` where `x` moves past a head with another key. */
  lemma InsertStablePast(cfg: SortConfig, x: Book, t: seq<Book>, k: Key)
    requires t != [] && Compare(cfg, t[0], x) < 0
    requires KeyOf(cfg.field, t[0]) != KeyOf(cfg.field, x)
    requires WithKey(cfg.field, k, Insert(cfg, x, t[1..]))
          == (if KeyOf(cfg.field, x) == k then [x] else []) + WithKey(cfg.field, k, t[1..])
    ensures WithKey(cfg.field, k, Insert(cfg, x, t))
         == (if KeyOf(cfg.field, x) == k then [x] else []) + WithKey(cfg.field, k, t)
  {
    var f := cfg.field;
    var xs := if KeyOf(f, x) == k then [x] else [];
    var ys := if KeyOf(f, t[0]) == k then [t[0]] else [];
    var rest := Insert(cfg, x, t[1..]);
    assert Insert(cfg, x, t) == [t[0]] + rest;
    WithKeyCons(f, k, t[0], rest);
    WithKeyCons(f, k, t[0], t[1..]);
    assert [t[0]] + t[1..] == t;
    SwapPastEmpty(xs, ys, WithKey(f, k, t[1..]));
  }

  /** Two pieces of which one is empty can be joined in either order. */
  lemma SwapPastEmpty(xs: seq<Book>, ys: seq<Book>, w: seq<Book>)
    requires xs == [] || ys == []
    ensures ys + (xs + w) == xs + (ys + w)
  {
  }

  lemma {:induction false} SortStableAt(cfg: SortConfig, s: seq<Book>, k: Key)
    ensures WithKey(cfg.field, k, SortBooks(cfg, s)) == WithKey(cfg.field, k, s)
  {
    if s != [] {
      SortStableAt(cfg, s[1..], k);
      InsertStable(cfg, s[0], SortBooks(cfg, s[1..]), k);
    }
  }

  /** Books with equal keys keep their input order, in either direction. */
  lemma SortBooksStable(cfg: SortConfig, s: seq<Book>)
    ensures StableOf(cfg.field, SortBooks(cfg, s), s)
  {
    forall k ensures WithKey(cfg.field, k, SortBooks(cfg, s)) == WithKey(cfg.field, k, s) {
      SortStableAt(cfg, s, k);
    }
  }

  /** The first book of a list heads the books that share its key. */
  lemma WithKeyOfHead(field: SortField, s: seq<Book>)
    requires s != []
    ensures WithKey(field, KeyOf(field, s[0]), s) != []
    ensures WithKey(field, KeyOf(field, s[0]), s)[0] == s[0]
  {
  }

  /** Lists with the same books key by key are both empty or both not. */
  lemma StableEmpty(field: SortField, a: seq<Book>, b: seq<Book>)
    requires StableOf(field, a, b) && a == []
    ensures b == []
  {
    if b != [] {
      WithKeyOfHead(field, b);
      assert false;
    }
  }

  /** Two sorted, key-by-key equal, non-empty lists start with books of the same key. */
  lemma StableHeadKeys(cfg: SortConfig, a: seq<Book>, b: seq<Book>)
    requires a != [] && b != []
    requires Sorted(cfg, a) && Sorted(cfg, b) && StableOf(cfg.field, a, b)
    ensures KeyOf(cfg.field, a[0]) == KeyOf(cfg.field, b[0])
  {
    var f, dir := cfg.field, cfg.direction;
    var ka, kb := KeyOf(f, a[0]), KeyOf(f, b[0]);
    NotAfterAllOfKey(cfg, b, a[0]);
    NotAfterAllOfKey(cfg, a, b[0]);
    assert CompareKeys(dir, kb, ka) <= 0;
    assert CompareKeys(dir, ka, kb) <= 0;
    CompareAntisymmetric(dir, ka, kb);
    CompareMeaning(dir, ka, kb);
  }

  /** Every book of `WithKey(field, k, s)` is a book of `s` with key `k`. */
  lemma {:induction false} WithKeyMember(field: SortField, k: Key, s: seq<Book>, y: Book)
    requires y in WithKey(field, k, s)
    ensures y in s && KeyOf(field, y) == k
  {
    if s != [] {
      WithKeyCons(field, k, s[0], s[1..]);
      assert s == [s[0]] + s[1..];
      if y != s[0] || KeyOf(field, s[0]) != k {
        WithKeyMember(field, k, s[1..], y);
      }
    }
  }

  /** In a sorted list the head is "not after" a book whose key occurs in the list. */
  lemma NotAfterAllOfKey(cfg: SortConfig, s: seq<Book>, y: Book)
    requires s != [] && Sorted(cfg, s)
    requires WithKey(cfg.field, KeyOf(cfg.field, y), s) != []
    ensures CompareKeys(cfg.direction, KeyOf(cfg.field, s[0]), KeyOf(cfg.field, y)) <= 0
  {
    var f := cfg.field;
    var z := WithKey(f, KeyOf(f, y), s)[0];
    WithKeyMember(f, KeyOf(f, y), s, z);
    var j :| 0 <= j < |s| && s[j] == z;
    if j == 0 {
      CompareMeaning(cfg.direction, KeyOf(f, s[0]), KeyOf(f, y));
    } else {
      assert Compare(cfg, s[0], s[j]) <= 0;
    }
  }

  /**
    A stable sorted rearrangement is unique: two lists that are both sorted
    by the comparator and hold, key by key, the same books in the same order
    are equal.
  */
  lemma {:induction false} StableSortedUnique(cfg: SortConfig, a: seq<Book>, b: seq<Book>)
    requires Sorted(cfg, a) && Sorted(cfg, b)
    requires StableOf(cfg.field, a, b)
    ensures a == b
    decreases |a|
  {
    var f := cfg.field;
    if a == [] {
      StableEmpty(f, a, b);
    } else if b == [] {
      forall k ensures WithKey(f, k, b) == WithKey(f, k, a) { }
      StableEmpty(f, b, a);
    } else {
      StableHeads(cfg, a, b);
      StableTails(f, a, b);
      SortedTail(cfg, a);
      SortedTail(cfg, b);
      StableSortedUnique(cfg, a[1..], b[1..]);
      assert a == [a[0]] + a[1..] && b == [b[0]] + b[1..];
    }
  }

  /** Two sorted, key-by-key equal, non-empty lists start with the same book. */
  lemma StableHeads(cfg: SortConfig, a: seq<Book>, b: seq<Book>)
    requires a != [] && b != []
    requires Sorted(cfg, a) && Sorted(cfg, b) && StableOf(cfg.field, a, b)
    ensures a[0] == b[0]
  {
    var f := cfg.field;
    StableHeadKeys(cfg, a, b);
    WithKeyOfHead(f, a);
    WithKeyOfHead(f, b);
    assert WithKey(f, KeyOf(f, a[0]), a) == WithKey(f, KeyOf(f, a[0]), b);
  }

  lemma StableTails(field: SortField, a: seq<Book>, b: seq<Book>)
    requires a != [] && b != [] && a[0] == b[0]
    requires StableOf(field, a, b)
    ensures StableOf(field, a[1..], b[1..])
  {
    forall k ensures WithKey(field, k, a[1..]) == WithKey(field, k, b[1..]) {
      WithKeyCons(field, k, a[0], a[1..]);
      WithKeyCons(field, k, b[0], b[1..]);
      assert [a[0]] + a[1..] == a && [b[0]] + b[1..] == b;
      var ys := if KeyOf(field, a[0]) == k then [a[0]] else [];
      var ta, tb := WithKey(field, k, a[1..]), WithKey(field, k, b[1..]);
      assert ys + ta == ys + tb;
      assert (ys + ta)[|ys|..] == ta && (ys + tb)[|ys|..] == tb;
    }
  }

  lemma SortedTail(cfg: SortConfig, s: seq<Book>)
    requires s != [] && Sorted(cfg, s)
    ensures Sorted(cfg, s[1..])
  {
    forall i, j | 0 <= i < j < |s| - 1 ensures Compare(cfg, s[1..][i], s[1..][j]) <= 0 {
      assert Compare(cfg, s[i + 1], s[j + 1]) <= 0;
    }
  }

  /**
    Any stable sort with this comparator (as `Array.prototype.sort` has been
    required to be since ES2019) returns exactly `SortBooks`.
  */
  lemma AnyStableSortIsSortBooks(cfg: SortConfig, s: seq<Book>, r: seq<Book>)
    requires Sorted(cfg, r) && StableOf(cfg.field, r, s)
    ensures r == SortBooks(cfg, s)
  {
    SortBooksSorted(cfg, s);
    SortBooksStable(cfg, s);
    StableSortedUnique(cfg, r, SortBooks(cfg, s));
  }

  /** Sorting an already sorted list leaves it as it is. */
  lemma {:induction false} SortedIsFixpoint(cfg: SortConfig, s: seq<Book>)
    requires Sorted(cfg, s)
    ensures SortBooks(cfg, s) == s
  {
    if s != [] {
      SortedIsFixpoint(cfg, s[1..]);
      if |s| > 1 {
        assert Compare(cfg, s[0], s[1]) <= 0;
        CompareAntisymmetric(cfg.direction, KeyOf(cfg.field, s[1]), KeyOf(cfg.field, s[0]));
        assert s[1..][0] == s[1];
      }
      assert s == [s[0]] + s[1..];
    }
  }

  // ===========================================================================
  // The pipeline
  // ===========================================================================

  /** The hook's result: the kept books, stably sorted. */
  function SortedAndFilteredBooks(books: seq<Book>, f: Filters, cfg: SortConfig): (r: seq<Book>)
    ensures |r| <= |books|
    ensures forall b :: b in r <==> b in books && Keep(f, b)
    ensures multiset(r) == multiset(FilterBooks(books, f))
  {
    SortBooks(cfg, FilterBooks(books, f))
  }

  /** The hook's `filteredCount`: never more than `totalBooks`. */
  function FilteredCount(books: seq<Book>, f: Filters, cfg: SortConfig): (n: nat)
    ensures n <= |books|
    ensures n == |FilterBooks(books, f)|
  {
    |SortedAndFilteredBooks(books, f, cfg)|
  }

  /** The output is the filtered list, sorted by the comparator and stable. */
  lemma PipelineSortedStable(books: seq<Book>, f: Filters, cfg: SortConfig)
    ensures Sorted(cfg, SortedAndFilteredBooks(books, f, cfg))
    ensures StableOf(cfg.field, SortedAndFilteredBooks(books, f, cfg), FilterBooks(books, f))
  {
    SortBooksSorted(cfg, FilterBooks(books, f));
    SortBooksStable(cfg, FilterBooks(books, f));
  }

  /** With the default filters the output is a reordering of the whole input. */
  lemma DefaultFiltersPermute(books: seq<Book>, cfg: SortConfig)
    ensures multiset(SortedAndFilteredBooks(books, DefaultFilters, cfg)) == multiset(books)
  {
    DefaultFiltersKeepAll(books);
  }

  /** Running the pipeline on its own output with the same settings changes nothing. */
  lemma PipelineIdempotent(books: seq<Book>, f: Filters, cfg: SortConfig)
    ensures SortedAndFilteredBooks(SortedAndFilteredBooks(books, f, cfg), f, cfg)
         == SortedAndFilteredBooks(books, f, cfg)
  {
    var once := SortedAndFilteredBooks(books, f, cfg);
    FilterAllKept(once, f);
    PipelineSortedStable(books, f, cfg);
    SortedIsFixpoint(cfg, once);
  }

  /** With tied keys, descending order is not the reverse of ascending order. */
  lemma DescIsNotReversedAsc()
    ensures var a, b := Book(1, "Same", "A", 5.0, 1), Book(2, "Same", "B", 6.0, 2);
            SortBooks(SortConfig(Title, Asc), [a, b]) == [a, b] &&
            SortBooks(SortConfig(Title, Desc), [a, b]) == [a, b]
  {
    var a, b := Book(1, "Same", "A", 5.0, 1), Book(2, "Same", "B", 6.0, 2);
    assert KeyOf(Title, a) == KeyOf(Title, b);
  }

  /** A two-book list filtered by stock status and then by price range. */
  lemma OutOfStockScenario()
    ensures var zoo, ant := Book(1, "Zoo", "A", 5.0, 0), Book(2, "Ant", "B", 60.0, 20);
            SortedAndFilteredBooks([zoo, ant], Filters("", "outOfStock", "all", ""), DefaultSort) == [zoo]
  {
    var zoo, ant := Book(1, "Zoo", "A", 5.0, 0), Book(2, "Ant", "B", 60.0, 20);
    assert [zoo, ant][1..] == [ant];
    assert !Keep(Filters("", "outOfStock", "all", ""), ant);
  }

  lemma Over50Scenario()
    ensures var zoo, ant := Book(1, "Zoo", "A", 5.0, 0), Book(2, "Ant", "B", 60.0, 20);
            SortedAndFilteredBooks([zoo, ant], Filters("", "all", "over50", ""), DefaultSort) == [ant]
  {
    var zoo, ant := Book(1, "Zoo", "A", 5.0, 0), Book(2, "Ant", "B", 60.0, 20);
    assert [zoo, ant][1..] == [ant];
    assert !Keep(Filters("", "all", "over50", ""), zoo);
    assert Keep(Filters("", "all", "over50", ""), ant);
    assert FilterBooks([zoo, ant], Filters("", "all", "over50", "")) == [ant];
  }

  // ===========================================================================
  // The hook's state
  // ===========================================================================

  /** The `filters` and `sortConfig` state records of the hook. */
  class FilterSortHook {
    var filters: Filters
    var sortConfig: SortConfig

    constructor()
      ensures filters == DefaultFilters && sortConfig == DefaultSort
    {
      filters := DefaultFilters;
      sortConfig := DefaultSort;
    }

    method HandleFilterChange(newFilters: Filters)
      modifies this
      ensures filters == newFilters && sortConfig == old(sortConfig)
    {
      filters := newFilters;
    }

    method HandleSortChange(newSortConfig: SortConfig)
      modifies this
      ensures sortConfig == newSortConfig && filters == old(filters)
    {
      sortConfig := newSortConfig;
    }

    /** Restores the default filters and title/ascending; afterwards every book is shown. */
    method ResetFiltersAndSort()
      modifies this
      ensures filters == DefaultFilters && sortConfig == DefaultSort
      ensures forall books: seq<Book> :: multiset(FilteredBooks(books)) == multiset(books)
    {
      filters := DefaultFilters;
      sortConfig := DefaultSort;
      forall books: seq<Book> ensures multiset(FilteredBooks(books)) == multiset(books) {
        DefaultFiltersPermute(books, sortConfig);
      }
    }

    /** The list the hook hands back as `filteredBooks`. */
    function FilteredBooks(books: seq<Book>): seq<Book>
      reads this
    {
      SortedAndFilteredBooks(books, filters, sortConfig)
    }
  }
}
