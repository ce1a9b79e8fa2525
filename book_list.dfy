// The catalogue page of src/components/books/BookList.tsx: which request it
// sends, its search and page state, and its borrow handler.

module BookList {
  import opened Types
  import opened Effects
  import Api
  import BookCard

  const PageSize := 12

  /** `searchParams.title || searchParams.author || searchParams.isbn || searchParams.genre`. */
  predicate HasFilter(p: SearchParams) {
    Truthy(p.title) || Truthy(p.author) || Truthy(p.isbn) || Truthy(p.genre)
  }

  /** The request of the page's query. */
  function BooksRequest(p: SearchParams, currentPage: int): Api.Request {
    if HasFilter(p) then Api.Request("/books/search", Api.SearchQuery(p.(page := Some(currentPage), size := Some(PageSize))))
    else Api.GetAllBooks(Some(currentPage), Some(PageSize))
  }

  /** The search endpoint is used exactly when a text filter is set; either way
      the request asks for the current page, twelve books to a page, and the
      filters it carries are those of the record with the empty ones dropped. */
  lemma RequestShape(p: SearchParams, currentPage: int)
    ensures var r := BooksRequest(p, currentPage);
      && (r.path == "/books/search" <==> HasFilter(p))
      && (r.path == "/books" <==> !HasFilter(p))
      && Api.ReadParams(r.query) ==
           SearchParams(Api.DropFalsy(p.title), Api.DropFalsy(p.author), Api.DropFalsy(p.isbn),
                        Api.DropFalsy(p.genre), Some(currentPage), Some(PageSize))
  {
    if HasFilter(p) {
      Api.SearchQueryRoundTrip(p.(page := Some(currentPage), size := Some(PageSize)));
    }
  }

  /** The page's state: the submitted search record and the current page. */
  class Catalogue {
    var searchParams: SearchParams
    var currentPage: int

    constructor ()
      ensures searchParams == NoParams && currentPage == 0
    {
      searchParams, currentPage := NoParams, 0;
    }

    /** `handleSearch`: a new search starts again from the first page. */
    method HandleSearch(params: SearchParams)
      modifies this
      ensures searchParams == params && currentPage == 0
      ensures Api.ReadParams(BooksRequest(searchParams, currentPage).query).page == Some(0)
    {
      searchParams := params;
      currentPage := 0;
      RequestShape(searchParams, currentPage);
    }

    /** `handlePageChange`: the search stays, the page moves. */
    method HandlePageChange(page: int)
      modifies this
      ensures currentPage == page && searchParams == old(searchParams)
      ensures BooksRequest(searchParams, currentPage).path == BooksRequest(old(searchParams), old(currentPage)).path
    {
      currentPage := page;
      RequestShape(searchParams, currentPage);
      RequestShape(old(searchParams), old(currentPage));
    }
  }

  const LoginPrompt := "Please login to borrow books"

  /** `handleBorrow`: anonymous visitors are sent to the login page instead. */
  function HandleBorrow(isAuthenticated: bool, bookId: string): (effects: seq<Effect>)
    ensures Calls(effects) == (if isAuthenticated then [BorrowBook(bookId)] else [])
    ensures Navigate("/login") in effects <==> !isAuthenticated
  {
    var effects := if !isAuthenticated then [Toast(InfoToast, LoginPrompt), Navigate("/login")]
                   else [Call(BorrowBook(bookId))];
    assert effects[1..] == if !isAuthenticated then [Navigate("/login")] else [];
    effects
  }

  /** `onSuccess` of the borrow: a toast and a refetch of the catalogue; the
      count of copies is never adjusted locally. */
  function OnBorrowSuccess(): (effects: seq<Effect>)
    ensures Calls(effects) == []
    ensures Refetch("books") in effects
  {
    var effects := [Toast(SuccessToast, "Book borrowed successfully!"), Refetch("books")];
    assert effects[1..][1..] == [];
    effects
  }

  /** The cards of the result page, all given `handleBorrow` and the borrow
      mutation's pending flag. */
  function Cards(books: seq<Book>, isPending: bool): (r: seq<BookCard.CardView>)
    ensures |r| == |books|
    ensures forall i :: 0 <= i < |books| ==> r[i] == BookCard.Card(books[i], true, isPending)
  {
    seq(|books|, i requires 0 <= i < |books| => BookCard.Card(books[i], true, isPending))
  }

  /** While one borrow is pending, no card lets another one through; otherwise
      exactly the available books can be borrowed. */
  lemma PendingBorrowDisablesAllCards(books: seq<Book>, isPending: bool)
    ensures isPending ==> forall c :: c in Cards(books, isPending) ==> BookCard.ClickBorrow(c).None?
    ensures !isPending ==> forall i :: 0 <= i < |books| ==>
      (BookCard.ClickBorrow(Cards(books, isPending)[i]) == Some(books[i].id) <==> BookCard.IsAvailable(books[i]))
  {
    var cards := Cards(books, isPending);
    forall c | c in cards
      ensures isPending ==> BookCard.ClickBorrow(c).None?
    {
      var i :| 0 <= i < |cards| && cards[i] == c;
      BookCard.BorrowOnlyWhenAvailable(books[i], true, isPending);
    }
    forall i | 0 <= i < |books|
      ensures !isPending ==> (BookCard.ClickBorrow(cards[i]) == Some(books[i].id) <==> BookCard.IsAvailable(books[i]))
    {
      BookCard.BorrowOnlyWhenAvailable(books[i], true, isPending);
    }
  }
}
