// The route guards and the route table of src/routes/index.tsx.
//
// A location is the list of its path segments after the leading "/": "/books/7"
// is ["books", "7"] and "/" is [].

module Routes {
  import opened Types
  import AuthStore
  import Api

  /** What a guard renders: the spinner, a `<Navigate replace>` or its children. */
  datatype View = Spinner | Redirect(to: string) | Render

  /** `ProtectedRoute`: wait for the session, then admit any authenticated user. */
  function ProtectedRoute(s: AuthStore.State): (v: View)
    ensures v == Spinner <==> s.isLoading
    ensures v == Redirect("/login") <==> !s.isLoading && !s.isAuthenticated
    ensures v == Render <==> !s.isLoading && s.isAuthenticated
  {
    if s.isLoading then Spinner
    else if !s.isAuthenticated then Redirect("/login")
    else Render
  }

  /** `user?.role === "LIBRARIAN"`: false when there is no user. */
  predicate IsLibrarian(user: Option<AuthUser>) {
    user.Some? && user.value.role == Librarian
  }

  /** `LibrarianRoute`: wait for the session, then admit authenticated librarians only. */
  function LibrarianRoute(s: AuthStore.State): (v: View)
    ensures v == Spinner <==> s.isLoading
    ensures v == Render <==> !s.isLoading && s.isAuthenticated && IsLibrarian(s.user)
    ensures v == Redirect("/") <==> !s.isLoading && !(s.isAuthenticated && IsLibrarian(s.user))
  {
    if s.isLoading then Spinner
    else if !s.isAuthenticated || !IsLibrarian(s.user) then Redirect("/")
    else Render
  }

  /** Whatever the librarian guard admits, the authenticated guard admits too. */
  lemma LibrarianRouteImpliesProtectedRoute(s: AuthStore.State)
    ensures LibrarianRoute(s) == Render ==> ProtectedRoute(s) == Render
    ensures LibrarianRoute(s) == Spinner <==> ProtectedRoute(s) == Spinner
  {
  }

  // ------------------------------------------------------------- route table

  datatype Page =
    | Home | Login | Register | Books | BookDetails(id: string)
    | MyBorrowings | AdminBooks | AdminUsers | AdminBorrowings

  datatype Guard = Open | Protected | LibrarianOnly

  /** The wrapper each route of the table puts around its page. */
  function GuardOf(p: Page): Guard {
    match p
    case MyBorrowings => Protected
    case AdminBooks => LibrarianOnly
    case AdminUsers => LibrarianOnly
    case AdminBorrowings => LibrarianOnly
    case _ => Open
  }

  /** The location a page is mounted at. */
  function PathOf(p: Page): seq<string> {
    match p
    case Home => []
    case Login => ["login"]
    case Register => ["register"]
    case Books => ["books"]
    case BookDetails(id) => ["books", id]
    case MyBorrowings => ["my-borrowings"]
    case AdminBooks => ["admin", "books"]
    case AdminUsers => ["admin", "users"]
    case AdminBorrowings => ["admin", "borrowings"]
  }

  /** The link text of a location: "/" for the root, "/a/b" for ["a", "b"]. */
  function Href(path: seq<string>): string {
    if path == [] then "/" else Join(path)
  }

  function Join(path: seq<string>): string
    requires path != []
  {
    "/" + path[0] + if |path| == 1 then "" else Join(path[1..])
  }

  /** The route of the table that matches a location, if any; a dynamic segment
      `:id` matches any non-empty segment. */
  function Match(path: seq<string>): Option<Page> {
    if path == [] then Some(Home)
    else if |path| == 1 then
      if path[0] == "login" then Some(Login)
      else if path[0] == "register" then Some(Register)
      else if path[0] == "books" then Some(Books)
      else if path[0] == "my-borrowings" then Some(MyBorrowings)
      else None
    else if |path| == 2 then
      if path[0] == "books" then
        if path[1] != "" then Some(BookDetails(path[1])) else None
      else if path[0] == "admin" then
        if path[1] == "books" then Some(AdminBooks)
        else if path[1] == "users" then Some(AdminUsers)
        else if path[1] == "borrowings" then Some(AdminBorrowings)
        else None
      else None
    else None
  }

  /** Every page is reached at its own location. */
  lemma MatchPathOf(p: Page)
    requires p.BookDetails? ==> p.id != ""
    ensures Match(PathOf(p)) == Some(p)
  {
  }

  /** A location the table matches is the location of the page it matches. */
  lemma PathOfMatch(path: seq<string>)
    requires Match(path).Some?
    ensures PathOf(Match(path).value) == path
  {
    if |path| == 2 {
      assert path == [path[0], path[1]];
    } else if |path| == 1 {
      assert path == [path[0]];
    }
  }

  /** What the layout's outlet shows at a location. */
  datatype Outlet = Shows(page: Page) | Loading | NavigateTo(to: string)

  function Show(path: seq<string>, s: AuthStore.State): (r: Outlet)
    ensures Match(path).None? ==> r == NavigateTo("/")
    ensures r.Shows? ==> Match(path) == Some(r.page)
  {
    match Match(path)
    case None => NavigateTo("/")
    case Some(p) =>
      var v := match GuardOf(p)
        case Open => Render
        case Protected => ProtectedRoute(s)
        case LibrarianOnly => LibrarianRoute(s);
      match v
      case Spinner => Loading
      case Redirect(to) => NavigateTo(to)
      case Render => Shows(p)
  }

  /** Public pages show in every session state; "my-borrowings" shows exactly to
      settled authenticated sessions; the admin pages exactly to settled librarian
      sessions; every other location sends the browser to "/". */
  lemma RouteTableGuards(path: seq<string>, s: AuthStore.State)
    ensures Match(path).Some? && GuardOf(Match(path).value) == Open ==> Show(path, s) == Shows(Match(path).value)
    ensures Match(path) == Some(MyBorrowings) ==>
      (Show(path, s) == Shows(MyBorrowings) <==> !s.isLoading && s.isAuthenticated)
    ensures Match(path).Some? && GuardOf(Match(path).value) == LibrarianOnly ==>
      (Show(path, s).Shows? <==> !s.isLoading && s.isAuthenticated && IsLibrarian(s.user))
    ensures Match(path).Some? && GuardOf(Match(path).value) != Open && s.isLoading ==> Show(path, s) == Loading
    ensures Match(path).None? ==> Show(path, s) == NavigateTo("/")
  {
  }

  /** The three admin pages, and only they, sit behind the librarian guard. */
  lemma AdminPagesAreLibrarianOnly(p: Page)
    ensures GuardOf(p) == LibrarianOnly <==> |PathOf(p)| == 2 && PathOf(p)[0] == "admin"
  {
  }

  /** `Routes` runs `initialize` on mount; once it completes no guarded page is
      stuck on the spinner. */
  lemma NoSpinnerAfterInitialize(path: seq<string>, sess: AuthStore.Session,
                                 decode: string -> Option<Api.Claims>, parse: string -> Option<AuthUser>, now: int)
    ensures Show(path, AuthStore.AfterInitialize(sess, decode, parse, now).state) != Loading
  {
  }
}
