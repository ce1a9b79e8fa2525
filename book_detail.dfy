// The book page of src/components/books/BookDetail.tsx: its loading and
// not-found states, the Borrow-versus-Edit branching and `handleBorrow`.

module BookDetail {
  import opened Types
  import opened Effects
  import Button
  import BookCard
  import Routes
  import AuthStore

  /** What a librarian or anyone else is offered on the page. The Edit target
      is a location, written as its path segments like every location of the
      route table: `/admin/books/edit/{id}` is ["admin", "books", "edit", id]. */
  datatype Action = BorrowAction(disabled: bool) | EditAction(target: seq<string>)

  datatype DetailView = Spinner | NotFound | Page(badge: Badge, action: Action)

  /** The page for the book query's state; `isPending` is the borrow mutation's. */
  function View(isLoading: bool, book: Option<Book>, user: Option<AuthUser>, isPending: bool): (v: DetailView)
    ensures v == Spinner <==> isLoading
    ensures v == NotFound <==> !isLoading && book.None?
    ensures v.Page? ==> v.badge == BookCard.AvailabilityBadge(book.value)
  {
    if isLoading then Spinner
    else if book.None? then NotFound
    else
      var b := book.value;
      var action := if Routes.IsLibrarian(user) then EditAction(["admin", "books", "edit", b.id])
                    else BorrowAction(Button.Disabled(!BookCard.IsAvailable(b) || isPending, isPending));
      Page(BookCard.AvailabilityBadge(b), action)
  }

  /** Librarians get Edit and only Edit; everybody else, anonymous visitors
      included, gets Borrow, disabled when no copy is left or a borrow is pending. */
  lemma BorrowOrEdit(b: Book, user: Option<AuthUser>, isPending: bool)
    ensures var v := View(false, Some(b), user, isPending);
      && (v.action.EditAction? <==> user.Some? && user.value.role == Librarian)
      && (v.action.EditAction? ==> v.action.target == ["admin", "books", "edit", b.id])
      && (v.action.BorrowAction? ==> (v.action.disabled <==> b.availableQuantity <= 0 || isPending))
  {
  }

  /** The Edit target is not a location of the route table: for every book and
      every session, the catch-all route sends the librarian to "/" instead of
      an edit form. */
  lemma EditTargetIsUnrouted(b: Book, user: Option<AuthUser>, isPending: bool, s: AuthStore.State)
    requires Routes.IsLibrarian(user)
    ensures var target := View(false, Some(b), user, isPending).action.target;
      && Routes.Match(target).None?
      && Routes.Show(target, s) == Routes.NavigateTo("/")
  {
  }

  const LoginPrompt := "Please login to borrow books"

  /** `handleBorrow`: anonymous visitors are sent to the login page; otherwise the
      book of the page, if the location names one, is borrowed. */
  function HandleBorrow(isAuthenticated: bool, id: Option<string>): (effects: seq<Effect>)
    ensures !isAuthenticated ==> effects == [Toast(InfoToast, LoginPrompt), Navigate("/login")]
    ensures isAuthenticated && Truthy(id) ==> effects == [Call(BorrowBook(id.value))]
    ensures isAuthenticated && !Truthy(id) ==> effects == []
  {
    if !isAuthenticated then [Toast(InfoToast, LoginPrompt), Navigate("/login")]
    else if Truthy(id) then [Call(BorrowBook(id.value))]
    else []
  }

  /** No anonymous borrow reaches the backend, and an authenticated one sends
      exactly one request, for the page's book. */
  lemma BorrowNeedsSession(isAuthenticated: bool, id: Option<string>)
    ensures !isAuthenticated ==> Calls(HandleBorrow(isAuthenticated, id)) == []
    ensures isAuthenticated && Truthy(id) ==> Calls(HandleBorrow(isAuthenticated, id)) == [BorrowBook(id.value)]
  {
    if isAuthenticated && Truthy(id) {
      assert HandleBorrow(isAuthenticated, id)[1..] == [];
    } else if !isAuthenticated {
      assert HandleBorrow(isAuthenticated, id)[1..][1..] == [];
    }
  }

  /** `onSuccess` of the borrow: a toast and a refetch of this book; the count of
      copies is never adjusted locally. */
  function OnBorrowSuccess(): (effects: seq<Effect>)
    ensures Calls(effects) == []
    ensures Refetch("book") in effects
  {
    var effects := [Toast(SuccessToast, "Book borrowed successfully!"), Refetch("book")];
    assert effects[1..][1..] == [];
    effects
  }
}
