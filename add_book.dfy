/**
 * The add page (pages/AddBook.jsx): a blank draft edited through the form,
 * sent to the store when valid, and reset to blank after a successful add.
 */
module AddBook {
  import opened Common
  import opened BookForm
  import opened BookStores

  class AddBookPage {
    const store: BooksStore
    const form: FormState
    var bookData: FormValue
    var valid: bool

    constructor()
      ensures fresh(store) && fresh(form)
      ensures bookData == EmptyDraft && !valid
      ensures store.books == [] && store.addBookError == ""
    {
      store := new BooksStore();
      form := new FormState();
      bookData := EmptyDraft;
      valid := false;
    }

    /** The form's validation effect, which reports validity back to the page. */
    method Revalidate()
      modifies this, form
      ensures valid <==> FormIsValid(bookData)
      ensures bookData == old(bookData)
    {
      valid := form.ValidateForm(bookData);
    }

    /** A form field changes; the draft is updated and revalidated. */
    method Edit(name: string, ev: InputEvent)
      modifies this, form
      ensures bookData == HandleChange(old(bookData), name, ev)
      ensures valid <==> FormIsValid(bookData)
    {
      bookData := HandleChange(bookData, name, ev);
      Revalidate();
    }

    /**
     * `handleAddBook`: a valid draft is sent; a saved book clears the draft,
     * which is then invalid again, and returns to the list; a failure keeps
     * the draft and leaves the store's error on the page.
     */
    method Submit(reply: Reply<Book>) returns (sent: bool, navigateHome: bool)
      modifies this, store, form
      ensures sent <==> old(valid)
      ensures !sent ==> bookData == old(bookData) && store.books == old(store.books) && !navigateHome
      ensures sent && reply.Delivered? ==>
                store.books == old(store.books) + [reply.value] && bookData == EmptyDraft && !valid && navigateHome
      ensures sent && reply.Failed? ==>
                store.books == old(store.books) && bookData == old(bookData) && store.addBookError != "" && !navigateHome
      ensures sent ==> !store.addBookLoading
    {
      var submitted := HandleSubmit(bookData, valid);
      sent, navigateHome := false, false;
      if submitted.Some? && valid {
        sent := true;
        var outcome := store.AddBook(reply);
        if outcome.Resolved? {
          bookData := EmptyDraft;
          EmptyDraftErrors();
          Revalidate();
          navigateHome := true;
        }
      }
    }
  }
}
