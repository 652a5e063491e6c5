/**
 * The edit page (pages/EditBook.jsx): it loads the book named by the route,
 * copies it into a draft and a snapshot of the original, lets the form edit
 * the draft, and sends an update only when the draft is valid and differs
 * from the snapshot.
 */
module EditBook {
  import opened Common
  import opened BookForm
  import opened BookStores

  /**
   * `JSON.stringify(bookData) !== JSON.stringify(originalData)`: both records
   * are built with their keys in the same order, so the texts differ exactly
   * when the records do.
   */
  predicate HasChanges(bookData: FormValue, originalData: FormValue) {
    bookData != originalData
  }

  class EditBookPage {
    const store: BooksStore
    const form: FormState
    /** The `:id` route parameter; "" when the route carries none. */
    const routeId: string
    var bookData: FormValue
    var originalData: FormValue
    var valid: bool

    /** The first render: the blank draft, an empty snapshot, not yet valid. */
    constructor(routeId: string)
      ensures this.routeId == routeId && fresh(store) && fresh(form)
      ensures bookData == EmptyDraft && originalData == map[] && !valid
      ensures store.books == [] && store.bookLoaded == None && store.error == "" && store.updateBookError == ""
      ensures HasChanges(bookData, originalData)
    {
      this.routeId := routeId;
      store := new BooksStore();
      form := new FormState();
      bookData := EmptyDraft;
      originalData := map[];
      valid := false;
      assert "title" in EmptyDraft;
    }

    /** The form is shown once a book is loaded and no load is pending or has failed. */
    predicate FormShown()
      reads this, store
    {
      !store.loading && store.error == "" && store.bookLoaded.Some?
    }

    /** The update-error banner is shown while `updateBookError` is not empty. */
    predicate UpdateAlertShown()
      reads this, store
    {
      store.updateBookError != ""
    }

    /** The form's validation effect, which reports validity back to the page. */
    method Revalidate()
      modifies this, form
      ensures valid <==> FormIsValid(bookData)
      ensures bookData == old(bookData) && originalData == old(originalData)
    {
      valid := form.ValidateForm(bookData);
    }

    /** The effect on `bookLoaded`: a loaded book becomes both the draft and the snapshot. */
    method SyncFromStore()
      modifies this, form
      ensures store.bookLoaded.Some? ==>
                bookData == originalData == DraftOf(store.bookLoaded.value) && !HasChanges(bookData, originalData)
      ensures store.bookLoaded.None? ==> bookData == old(bookData) && originalData == old(originalData)
      ensures valid <==> FormIsValid(bookData)
    {
      if store.bookLoaded.Some? {
        bookData := DraftOf(store.bookLoaded.value);
        originalData := DraftOf(store.bookLoaded.value);
      }
      Revalidate();
    }

    /**
     * The mount effect: with no route id the page leaves for the list;
     * otherwise it fetches the book, and a delivered book fills the draft.
     */
    method Mount(reply: Reply<Book>) returns (navigateHome: bool)
      modifies this, store, form
      ensures navigateHome <==> routeId == ""
      ensures routeId == "" ==> store.bookLoaded == old(store.bookLoaded) && store.error == old(store.error)
      ensures routeId != "" && reply.Delivered? ==>
                store.bookLoaded == Some(reply.value) && FormShown() &&
                bookData == originalData == DraftOf(reply.value) && !HasChanges(bookData, originalData)
      ensures routeId != "" && reply.Failed? ==> store.bookLoaded == None && store.error != "" && !FormShown()
      ensures valid <==> FormIsValid(bookData)
      ensures store.books == old(store.books)
    {
      if routeId != "" {
        var outcome := store.FetchBookById(reply);
        navigateHome := false;
      } else {
        navigateHome := true;
      }
      SyncFromStore();
    }

    /** A form field changes; the draft is updated and revalidated, the snapshot is kept. */
    method Edit(name: string, ev: InputEvent)
      modifies this, form
      ensures bookData == HandleChange(old(bookData), name, ev) && originalData == old(originalData)
      ensures valid <==> FormIsValid(bookData)
    {
      bookData := HandleChange(bookData, name, ev);
      Revalidate();
    }

    /**
     * Submitting: the form passes the draft on when it is valid, and the page
     * sends it only when it also differs from the snapshot; a saved update
     * returns to the list.
     */
    method Submit(reply: Reply<Book>) returns (sent: bool, navigateHome: bool)
      modifies store
      ensures sent <==> valid && HasChanges(bookData, originalData)
      ensures !sent ==> store.books == old(store.books) && store.updateBookError == old(store.updateBookError)
      ensures sent && reply.Delivered? ==> store.books == ReplaceById(old(store.books), ParseInt(routeId), reply.value)
      ensures sent && reply.Failed? ==> store.books == old(store.books) && UpdateAlertShown()
      ensures navigateHome <==> sent && reply.Delivered?
      ensures sent ==> !store.updateBookLoading
    {
      var submitted := HandleSubmit(bookData, valid);
      sent, navigateHome := false, false;
      if submitted.Some? && valid && HasChanges(submitted.value, originalData) {
        var outcome := store.UpdateBook(ParseInt(routeId), reply);
        sent := true;
        navigateHome := outcome.Resolved?;
      }
    }

    /**
     * The banner's dismiss button as written: it clears the store's general
     * `error`, so the update error it is meant to dismiss stays on screen.
     */
    method DismissUpdateErrorAsWritten()
      modifies store
      ensures store.error == "" && store.updateBookError == old(store.updateBookError)
      ensures UpdateAlertShown() == old(UpdateAlertShown())
    {
      store.SetError("");
    }

    /** The dismiss button clearing the update error it sits in; the general error is left alone. */
    method DismissUpdateError()
      modifies store
      ensures !UpdateAlertShown()
      ensures store.error == old(store.error) && store.books == old(store.books)
    {
      store.ClearUpdateBookError();
    }
  }
}
