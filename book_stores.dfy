/**
 * The book store (stores/BookStores.jsx): the shared state of the pages (the
 * book list, the book being edited, three loading flags and three error
 * texts) and the actions that talk to the backend. The backend's reply to
 * each request is an input of the action that sends it.
 */
module BookStores {
  import opened Common

  // ===========================================================================
  // Replies and error messages
  // ===========================================================================

  /**
   * Why a request failed: the backend answered with a non-success status
   * (`serverMessage` is the `message` of its JSON body, "" when there is none
   * or the body cannot be read), or the request itself threw (the network was
   * unreachable, or a success body could not be read).
   */
  datatype Failure = HttpFailure(status: nat, serverMessage: string) | Thrown(message: string)

  /** What an awaited request yields. */
  datatype Reply<+T> = Delivered(value: T) | Failed(failure: Failure)

  /** The message of the error that reaches an action's `catch` block; `statusText` completes the `HTTP <status>: ...` fallback. */
  function FailureMessage(failure: Failure, statusText: string): (m: string)
    ensures failure.HttpFailure? ==> m != ""
    ensures failure.Thrown? ==> m == failure.message
  {
    match failure
    case HttpFailure(status, serverMessage) =>
      if serverMessage != "" then serverMessage else "HTTP " + Decimal(status) + ": " + statusText
    case Thrown(message) => message
  }

  const ConnectionMessage := "Unable to connect to server. Please check your connection."

  /**
   * Chromium's message for a request that never reached the server; other
   * engines word it differently, and `handleApiError` passes their wording on.
   */
  const NetworkFailureText := "Failed to fetch"

  /** `handleApiError`: a network failure becomes the connection text, an empty message the default. */
  function HandleApiError(message: string, defaultMessage: string): (r: string)
    ensures r in {ConnectionMessage, message, defaultMessage}
    ensures r == "" ==> message == "" && defaultMessage == ""
    ensures Includes(message, NetworkFailureText) ==> r == ConnectionMessage
  {
    if Includes(message, NetworkFailureText) then ConnectionMessage
    else if message != "" then message
    else defaultMessage
  }

  /** A message that does not contain the network-failure text is shown as it is. */
  lemma OtherMessagesPassThrough(message: string, defaultMessage: string)
    requires message != "" && !Includes(message, NetworkFailureText)
    ensures HandleApiError(message, defaultMessage) == message
  {
  }

  /** An empty message holds no network-failure text, so the action's default text is shown. */
  lemma EmptyMessageGivesDefault(defaultMessage: string)
    ensures HandleApiError("", defaultMessage) == defaultMessage
  {
    assert !Includes("", NetworkFailureText) by {
      assert |NetworkFailureText| > 0;
    }
  }

  /** A thrown error whose message holds "Failed to fetch" (Chromium's network error) is reported as a connection problem, whatever the action. */
  lemma NetworkFailureIsConnectionProblem(statusText: string, defaultMessage: string)
    ensures HandleApiError(FailureMessage(Thrown(NetworkFailureText), statusText), defaultMessage) == ConnectionMessage
  {
    assert OccursAt(NetworkFailureText, NetworkFailureText, 0);
  }

  /** An occurrence that cannot start inside `prefix` is an occurrence in `rest`, shifted by the prefix. */
  lemma OccurrenceShifts(prefix: string, rest: string, needle: string, i: int)
    requires |needle| > 0
    requires forall j :: 0 <= j < |prefix| ==> prefix[j] != needle[0]
    requires OccursAt(prefix + rest, needle, i)
    ensures OccursAt(rest, needle, i - |prefix|)
  {
    var s := prefix + rest;
    assert s[i..i + |needle|][0] == s[i];
    assert s[i..i + |needle|] == rest[i - |prefix|..i - |prefix| + |needle|];
  }

  /** A needle whose first character never occurs in `prefix` can only occur after it. */
  lemma NoOccurrenceAfterPrefix(prefix: string, rest: string, needle: string)
    requires |needle| > 0
    requires forall i :: 0 <= i < |prefix| ==> prefix[i] != needle[0]
    requires !Includes(rest, needle)
    ensures !Includes(prefix + rest, needle)
  {
    forall i | OccursAt(prefix + rest, needle, i)
      ensures false
    {
      OccurrenceShifts(prefix, rest, needle, i);
    }
  }

  /** The texts that complete `HTTP <status>: ...` in the four request actions. */
  predicate IsStatusText(t: string) {
    t == "Failed to add book" || t == "Failed to delete book" || t == "Book not found" || t == "Failed to update book"
  }

  /** An occurrence of "Failed to fetch" has an 'F' where it starts and an 'f' ten places on. */
  lemma NetworkFailureTextAt(t: string, i: int)
    requires OccursAt(t, NetworkFailureText, i)
    ensures t[i] == 'F' && t[i + 10] == 'f'
  {
    assert t[i..i + 15][0] == t[i] && t[i..i + 15][10] == t[i + 10];
  }

  /** A text with no such pair of letters does not hold "Failed to fetch". */
  lemma NoNetworkFailureText(t: string)
    requires forall i :: 0 <= i && i + 15 <= |t| ==> t[i] != 'F' || t[i + 10] != 'f'
    ensures !Includes(t, NetworkFailureText)
  {
    forall i | OccursAt(t, NetworkFailureText, i)
      ensures false
    {
      NetworkFailureTextAt(t, i);
    }
  }

  lemma StatusTextsAreNotNetworkFailures(t: string)
    requires IsStatusText(t)
    ensures !Includes(t, NetworkFailureText)
  {
    NoNetworkFailureText(t);
  }

  /**
   * A non-success status whose body has no message is shown with its status
   * code: it is never mistaken for a connection problem and never replaced by
   * the action's default text.
   */
  lemma StatusFailuresKeepTheirCode(status: nat, statusText: string, defaultMessage: string)
    requires IsStatusText(statusText)
    ensures HandleApiError(FailureMessage(HttpFailure(status, ""), statusText), defaultMessage)
            == "HTTP " + Decimal(status) + ": " + statusText
  {
    StatusTextsAreNotNetworkFailures(statusText);
    var prefix := "HTTP " + Decimal(status) + ": ";
    assert forall i :: 0 <= i < |prefix| ==> prefix[i] != 'F' by {
      forall i | 0 <= i < |prefix|
        ensures prefix[i] != 'F'
      {
        if 5 <= i < 5 + |Decimal(status)| {
          assert prefix[i] == Decimal(status)[i - 5];
        }
      }
    }
    NoOccurrenceAfterPrefix(prefix, statusText, NetworkFailureText);
    assert prefix + statusText == "HTTP " + Decimal(status) + ": " + statusText;
  }

  // ===========================================================================
  // List updates
  // ===========================================================================

  /** `books.filter(book => book.id !== bookId)` */
  function RemoveById(books: seq<Book>, id: int): (r: seq<Book>)
    ensures |r| <= |books|
    ensures forall b :: b in r <==> b in books && b.id != id
  {
    if books == [] then []
    else
      assert books == [books[0]] + books[1..];
      (if books[0].id != id then [books[0]] else []) + RemoveById(books[1..], id)
  }

  /** Each book with another id keeps all its copies; the removed id keeps none. */
  lemma {:induction false} RemoveByIdCounts(books: seq<Book>, id: int)
    ensures forall b :: multiset(RemoveById(books, id))[b] == if b.id != id then multiset(books)[b] else 0
  {
    if books != [] {
      RemoveByIdCounts(books[1..], id);
      assert books == [books[0]] + books[1..];
    }
  }

  /** A one-book list keeps its book exactly when the id differs. */
  lemma RemoveByIdSingle(b: Book, id: int)
    ensures RemoveById([b], id) == if b.id != id then [b] else []
  {
    assert [b][1..] == [];
  }

  /**
   * Removal works piece by piece: the survivors of `a + b` are the survivors
   * of `a` followed by those of `b`. With `RemoveByIdSingle` this fixes the
   * result completely, so the kept books stay in their original order.
   */
  lemma {:induction false} RemoveByIdAppend(a: seq<Book>, b: seq<Book>, id: int)
    ensures RemoveById(a + b, id) == RemoveById(a, id) + RemoveById(b, id)
  {
    if a == [] {
      assert a + b == b;
    } else {
      var head := if a[0].id != id then [a[0]] else [];
      var ab := a + b;
      assert ab[0] == a[0] && ab[1..] == a[1..] + b;
      calc {
        RemoveById(ab, id);
        head + RemoveById(a[1..] + b, id);
        { RemoveByIdAppend(a[1..], b, id); }
        head + (RemoveById(a[1..], id) + RemoveById(b, id));
        (head + RemoveById(a[1..], id)) + RemoveById(b, id);
        RemoveById(a, id) + RemoveById(b, id);
      }
    }
  }

  /** Removing an id no book carries changes nothing. */
  lemma {:induction false} RemoveAbsentId(books: seq<Book>, id: int)
    requires forall i :: 0 <= i < |books| ==> books[i].id != id
    ensures RemoveById(books, id) == books
  {
    if books != [] {
      RemoveAbsentId(books[1..], id);
      assert books == [books[0]] + books[1..];
    }
  }

  /** Deleting twice is deleting once. */
  lemma RemoveByIdIdempotent(books: seq<Book>, id: int)
    ensures RemoveById(RemoveById(books, id), id) == RemoveById(books, id)
  {
    var once := RemoveById(books, id);
    assert forall i :: 0 <= i < |once| ==> once[i] in once;
    RemoveAbsentId(once, id);
  }

  /** Deleting a book just added under a fresh id restores the list. */
  lemma {:induction false} RemoveAppended(books: seq<Book>, b: Book)
    requires forall i :: 0 <= i < |books| ==> books[i].id != b.id
    ensures RemoveById(books + [b], b.id) == books
  {
    var s := books + [b];
    if books == [] {
      assert s == [b] && s[1..] == [];
    } else {
      calc {
        RemoveById(s, b.id);
        [s[0]] + RemoveById(s[1..], b.id);
        { assert s[1..] == books[1..] + [b]; RemoveAppended(books[1..], b); }
        [books[0]] + books[1..];
        books;
      }
    }
  }

  /** `books.map(book => book.id === parseInt(bookId) ? result : book)`; `None` is a route id that parses to NaN. */
  function ReplaceById(books: seq<Book>, id: Option<int>, result: Book): (r: seq<Book>)
    ensures |r| == |books|
    ensures forall i :: 0 <= i < |books| ==> r[i] == if Some(books[i].id) == id then result else books[i]
  {
    if books == [] then []
    else
      var rest := ReplaceById(books[1..], id, result);
      assert forall i :: 1 <= i < |books| ==> books[1..][i - 1] == books[i];
      [if Some(books[0].id) == id then result else books[0]] + rest
  }

  /** A route id that does not parse, or that no book carries, leaves the list as it was. */
  lemma ReplaceAbsentId(books: seq<Book>, id: Option<int>, result: Book)
    requires forall i :: 0 <= i < |books| ==> Some(books[i].id) != id
    ensures ReplaceById(books, id, result) == books
  {
  }

  /** When the backend echoes the edited id, every position keeps its id, so the list order and its ids survive an update. */
  lemma ReplaceKeepsIds(books: seq<Book>, id: int, result: Book)
    requires result.id == id
    ensures forall i :: 0 <= i < |books| ==> ReplaceById(books, Some(id), result)[i].id == books[i].id
  {
  }

  // ===========================================================================
  // Queries of the database client
  // ===========================================================================

  /** The `{ data, error }` pair a table query returns. */
  datatype QueryResult = QueryData(rows: seq<Book>) | QueryError(message: string)

  /** The message of the error thrown when the undeclared name is evaluated, as V8 and SpiderMonkey word it. */
  const UndeclaredClientMessage := "supabase is not defined"

  // ===========================================================================
  // The store
  // ===========================================================================

  class BooksStore {
    var books: seq<Book>
    var bookLoaded: Option<Book>
    var loading: bool
    var error: string
    var addBookLoading: bool
    var addBookError: string
    var updateBookLoading: bool
    var updateBookError: string

    constructor()
      ensures books == [] && bookLoaded == None && !loading && error == ""
      ensures !addBookLoading && addBookError == "" && !updateBookLoading && updateBookError == ""
    {
      books := [];
      bookLoaded := None;
      loading := false;
      error := "";
      addBookLoading := false;
      addBookError := "";
      updateBookLoading := false;
      updateBookError := "";
    }

    /** `booksCount` */
    function BooksCount(): (n: nat)
      reads this
      ensures n == |books|
    {
      |books|
    }

    /** `addBook`: a delivered record is appended; a failure sets `addBookError` and rejects with the raw message. */
    method AddBook(reply: Reply<Book>) returns (outcome: Settled<Book>)
      modifies this`books, this`addBookLoading, this`addBookError
      ensures reply.Delivered? ==> books == old(books) + [reply.value] && addBookError == "" && outcome == Resolved(reply.value)
      ensures reply.Failed? ==>
                var m := FailureMessage(reply.failure, "Failed to add book");
                books == old(books) && addBookError == HandleApiError(m, "Failed to add book") && outcome == Rejected(m)
      ensures !addBookLoading
      ensures bookLoaded == old(bookLoaded) && loading == old(loading) && error == old(error)
      ensures updateBookLoading == old(updateBookLoading) && updateBookError == old(updateBookError)
    {
      addBookLoading := true;
      addBookError := "";
      match reply {
        case Delivered(result) =>
          books := books + [result];
          outcome := Resolved(result);
        case Failed(failure) =>
          var message := FailureMessage(failure, "Failed to add book");
          addBookError := HandleApiError(message, "Failed to add book");
          outcome := Rejected(message);
      }
      addBookLoading := false;
    }

    /**
     * `fetchBooks` as written: the first thing the request evaluates is a
     * database client that the file never declares, so every call throws the
     * same reference error and the list is never loaded.
     */
    method FetchBooksAsWritten() returns (outcome: Settled<()>)
      modifies this`loading, this`error
      ensures books == old(books)
      ensures error == UndeclaredClientMessage && outcome == Rejected(UndeclaredClientMessage)
      ensures !loading
      ensures bookLoaded == old(bookLoaded)
      ensures addBookLoading == old(addBookLoading) && addBookError == old(addBookError)
      ensures updateBookLoading == old(updateBookLoading) && updateBookError == old(updateBookError)
    {
      loading := true;
      error := "";
      var message := UndeclaredClientMessage;
      error := if message != "" then message else "Failed to fetch books";
      outcome := Rejected(message);
      loading := false;
    }

    /** `fetchBooks` with the client in scope: the rows replace the list, an error is stored with its fallback text. */
    method FetchBooks(result: QueryResult) returns (outcome: Settled<()>)
      modifies this`books, this`loading, this`error
      ensures result.QueryData? ==> books == result.rows && error == "" && outcome == Resolved(())
      ensures result.QueryError? ==>
                books == old(books) && outcome == Rejected(result.message) &&
                error == (if result.message != "" then result.message else "Failed to fetch books")
      ensures !loading
      ensures bookLoaded == old(bookLoaded)
      ensures addBookLoading == old(addBookLoading) && addBookError == old(addBookError)
      ensures updateBookLoading == old(updateBookLoading) && updateBookError == old(updateBookError)
    {
      loading := true;
      error := "";
      match result {
        case QueryData(rows) =>
          books := rows;
          outcome := Resolved(());
        case QueryError(message) =>
          error := if message != "" then message else "Failed to fetch books";
          outcome := Rejected(message);
      }
      loading := false;
    }

    /** `deleteBook`: on success every book with that id leaves the list and nothing else does. */
    method DeleteBook(bookId: int, reply: Reply<()>) returns (outcome: Settled<()>)
      modifies this`books, this`loading, this`error
      ensures reply.Delivered? ==> books == RemoveById(old(books), bookId) && error == "" && outcome == Resolved(())
      ensures reply.Delivered? ==> forall b :: b in books ==> b.id != bookId
      ensures reply.Failed? ==>
                var m := FailureMessage(reply.failure, "Failed to delete book");
                books == old(books) && error == HandleApiError(m, "Failed to delete book") && outcome == Rejected(m)
      ensures !loading
      ensures bookLoaded == old(bookLoaded)
      ensures addBookLoading == old(addBookLoading) && addBookError == old(addBookError)
      ensures updateBookLoading == old(updateBookLoading) && updateBookError == old(updateBookError)
    {
      loading := true;
      error := "";
      match reply {
        case Delivered(_) =>
          books := RemoveById(books, bookId);
          outcome := Resolved(());
        case Failed(failure) =>
          var message := FailureMessage(failure, "Failed to delete book");
          error := HandleApiError(message, "Failed to delete book");
          outcome := Rejected(message);
      }
      loading := false;
    }

    /** `fetchBookById`: the loaded book is cleared first and set only from a delivered record. */
    method FetchBookById(reply: Reply<Book>) returns (outcome: Settled<Book>)
      modifies this`loading, this`error, this`bookLoaded
      ensures reply.Delivered? ==> bookLoaded == Some(reply.value) && error == "" && outcome == Resolved(reply.value)
      ensures reply.Failed? ==>
                var m := FailureMessage(reply.failure, "Book not found");
                bookLoaded == None && error == HandleApiError(m, "Failed to fetch book") && outcome == Rejected(m)
      ensures !loading && books == old(books)
      ensures addBookLoading == old(addBookLoading) && addBookError == old(addBookError)
      ensures updateBookLoading == old(updateBookLoading) && updateBookError == old(updateBookError)
    {
      loading := true;
      error := "";
      bookLoaded := None;
      match reply {
        case Delivered(result) =>
          bookLoaded := Some(result);
          outcome := Resolved(result);
        case Failed(failure) =>
          var message := FailureMessage(failure, "Book not found");
          error := HandleApiError(message, "Failed to fetch book");
          outcome := Rejected(message);
      }
      loading := false;
    }

    /**
     * `updateBook`: on success the record replaces every listed book whose id
     * equals the parsed route id, and the loaded book when it is that book.
     */
    method UpdateBook(bookId: Option<int>, reply: Reply<Book>) returns (outcome: Settled<Book>)
      modifies this`books, this`bookLoaded, this`updateBookLoading, this`updateBookError
      ensures reply.Delivered? ==>
                books == ReplaceById(old(books), bookId, reply.value) && updateBookError == "" &&
                outcome == Resolved(reply.value)
      ensures reply.Delivered? ==>
                bookLoaded == if old(bookLoaded).Some? && Some(old(bookLoaded).value.id) == bookId
                              then Some(reply.value) else old(bookLoaded)
      ensures reply.Failed? ==>
                var m := FailureMessage(reply.failure, "Failed to update book");
                books == old(books) && bookLoaded == old(bookLoaded) &&
                updateBookError == HandleApiError(m, "Failed to update book") && outcome == Rejected(m)
      ensures !updateBookLoading
      ensures loading == old(loading) && error == old(error)
      ensures addBookLoading == old(addBookLoading) && addBookError == old(addBookError)
    {
      updateBookLoading := true;
      updateBookError := "";
      match reply {
        case Delivered(result) =>
          books := ReplaceById(books, bookId, result);
          if bookLoaded.Some? && Some(bookLoaded.value.id) == bookId {
            bookLoaded := Some(result);
          }
          outcome := Resolved(result);
        case Failed(failure) =>
          var message := FailureMessage(failure, "Failed to update book");
          updateBookError := HandleApiError(message, "Failed to update book");
          outcome := Rejected(message);
      }
      updateBookLoading := false;
    }

    /** `setError`, which the edit page calls directly. */
    method SetError(message: string)
      modifies this`error
      ensures error == message
    {
      error := message;
    }

    method ClearError()
      modifies this`error
      ensures error == ""
    {
      error := "";
    }

    method ClearAddBookError()
      modifies this`addBookError
      ensures addBookError == ""
    {
      addBookError := "";
    }

    method ClearUpdateBookError()
      modifies this`updateBookError
      ensures updateBookError == ""
    {
      updateBookError := "";
    }
  }
}
