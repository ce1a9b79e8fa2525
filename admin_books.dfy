// The librarian's catalogue page of src/pages/admin/Books.tsx: the page, search,
// form-open and selection state its handlers update, the create-or-update
// dispatch of the form, the delete confirmation and the availability badge.

module AdminBooks {
  import opened Types
  import opened Effects
  import Api
  import BookCard
  import BookForm

  const PageSize := 10

  /** The page's state. `selectedBook` is the book being edited; the form is open
      whenever one is. */
  class Manager {
    var page: int
    var search: string
    var isFormOpen: bool
    var selectedBook: Option<Book>

    predicate Valid()
      reads this
    {
      selectedBook.Some? ==> isFormOpen
    }

    /** The list query's key: page and search text. */
    function QueryKey(): (string, int, string)
      reads this
    {
      ("adminBooks", page, search)
    }

    /** The list query's request: the page alone, ten books to a page. */
    function ListRequest(): (r: Api.Request)
      reads this
      ensures r.path == "/books"
      ensures Api.ReadParams(r.query) == SearchParams(None, None, None, None, Some(page), Some(PageSize))
    {
      Api.GetAllBooks(Some(page), Some(PageSize))
    }

    constructor ()
      ensures page == 0 && search == "" && !isFormOpen && selectedBook.None?
      ensures Valid()
    {
      page, search, isFormOpen, selectedBook := 0, "", false, None;
    }

    /** Typing in the search box: the key changes, the request does not. */
    method SetSearch(value: string)
      modifies this
      ensures search == value
      ensures page == old(page) && isFormOpen == old(isFormOpen) && selectedBook == old(selectedBook)
      ensures ListRequest() == old(ListRequest())
      ensures old(search) != value ==> QueryKey() != old(QueryKey())
      ensures Valid() == old(Valid())
    {
      search := value;
    }

    /** The pagination's `onPageChange`. */
    method SetPage(p: int)
      modifies this
      ensures page == p
      ensures search == old(search) && isFormOpen == old(isFormOpen) && selectedBook == old(selectedBook)
      ensures Valid() == old(Valid())
    {
      page := p;
    }

    /** `handleEdit`: the book is selected and the form opened. */
    method HandleEdit(book: Book)
      modifies this
      ensures selectedBook == Some(book) && isFormOpen
      ensures page == old(page) && search == old(search)
      ensures Valid()
    {
      selectedBook := Some(book);
      isFormOpen := true;
    }

    /** "Add New Book": the selection is cleared and the form opened. */
    method OpenCreate()
      modifies this
      ensures selectedBook.None? && isFormOpen
      ensures page == old(page) && search == old(search)
      ensures Valid()
    {
      selectedBook := None;
      isFormOpen := true;
    }

    /** The form's `onCancel`: the form closed and the selection cleared. */
    method Cancel()
      modifies this
      ensures selectedBook.None? && !isFormOpen
      ensures page == old(page) && search == old(search)
      ensures Valid()
    {
      isFormOpen := false;
      selectedBook := None;
    }

    /** `handleFormSubmit`: one call, an update of the selected book or a
        creation; `succeeded` is whether the awaited call resolved. A success
        closes the form, clears the selection and refetches; a failure only
        shows a toast. */
    method HandleFormSubmit(data: BookFormData, succeeded: bool) returns (call: ApiCall, effects: seq<Effect>)
      requires Valid()
      modifies this
      ensures call == (if old(selectedBook).Some? then UpdateBook(old(selectedBook).value.id, data) else CreateBook(data))
      ensures succeeded ==> !isFormOpen && selectedBook.None?
      ensures succeeded ==> effects == [Toast(SuccessToast, SubmitMessage(old(selectedBook))), Refetch("adminBooks")]
      ensures !succeeded ==> isFormOpen == old(isFormOpen) && selectedBook == old(selectedBook)
      ensures !succeeded ==> effects == [Toast(ErrorToast, "Operation failed")]
      ensures page == old(page) && search == old(search)
      ensures Valid()
    {
      if selectedBook.Some? {
        call := UpdateBook(selectedBook.value.id, data);
      } else {
        call := CreateBook(data);
      }
      if succeeded {
        effects := [Toast(SuccessToast, SubmitMessage(selectedBook)), Refetch("adminBooks")];
        isFormOpen := false;
        selectedBook := None;
      } else {
        effects := [Toast(ErrorToast, "Operation failed")];
      }
    }
  }

  /** The success toast of a submit. */
  function SubmitMessage(selected: Option<Book>): string {
    if selected.Some? then "Book updated successfully" else "Book created successfully"
  }

  /** The heading over the form. */
  function FormTitle(selected: Option<Book>): string {
    if selected.Some? then "Edit Book" else "Add New Book"
  }

  /** `initialData={selectedBook}`. */
  function FormInitialData(selected: Option<Book>): Option<BookFormData> {
    match selected
    case Some(b) => Some(BookForm.FromBook(b))
    case None => None
  }

  /** The heading, the toast and the form agree on create versus update, except
      that the form's own button reads "Add Book" for a selected book without a
      title. */
  lemma CreateOrUpdateAgree(selected: Option<Book>)
    ensures FormTitle(selected) == "Edit Book" <==> selected.Some?
    ensures SubmitMessage(selected) == "Book updated successfully" <==> selected.Some?
    ensures BookForm.SubmitLabel(FormInitialData(selected)) == "Update Book" <==> selected.Some? && selected.value.name != ""
    ensures selected.None? ==> BookForm.DefaultValues(FormInitialData(selected)) == BookForm.Defaults
  {
  }

  /** `handleDelete`: the delete mutation, once the librarian confirms. */
  function HandleDelete(id: string, confirmed: bool): (r: Option<ApiCall>)
    ensures r.Some? <==> confirmed
    ensures r.Some? ==> r.value == DeleteBook(id)
  {
    if confirmed then Some(DeleteBook(id)) else None
  }

  /** The delete mutation's callbacks. */
  function OnDeleteSettled(succeeded: bool): (effects: seq<Effect>)
    ensures Refetch("adminBooks") in effects <==> succeeded
    ensures Calls(effects) == []
  {
    var effects := if succeeded then [Toast(SuccessToast, "Book deleted successfully"), Refetch("adminBooks")]
                   else [Toast(ErrorToast, "Failed to delete book")];
    assert effects[1..] == if succeeded then [Refetch("adminBooks")] else [];
    assert succeeded ==> effects[1..][1..] == [];
    effects
  }

  /** The variant of the row's "available / total" badge. */
  function RowBadgeVariant(b: Book): Variant {
    if b.availableQuantity > 0 then Success else Error
  }

  /** The row badge uses the catalogue card's availability rule and colour. */
  lemma RowBadgeAgreesWithCard(b: Book)
    ensures RowBadgeVariant(b) == Success <==> BookCard.IsAvailable(b)
    ensures RowBadgeVariant(b) == BookCard.AvailabilityBadge(b).variant
  {
  }
}
