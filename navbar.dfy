// The top bar of src/components/layout/Navbar.tsx: which links a session sees,
// the mobile menu flag and the logout handler.

module Navbar {
  import opened Types
  import opened Effects
  import AuthStore
  import Routes

  /** A link of the bar: its text and the page of the route table it points to. */
  datatype NavLink = NavLink(caption: string, page: Routes.Page)

  const HomeLink := NavLink("Home", Routes.Home)
  const BooksLink := NavLink("Books", Routes.Books)
  const MyBorrowingsLink := NavLink("My Borrowings", Routes.MyBorrowings)
  const AdminLinks := [
    NavLink("Manage Books", Routes.AdminBooks),
    NavLink("Manage Users", Routes.AdminUsers),
    NavLink("All Borrowings", Routes.AdminBorrowings)]

  /** The page links, the same in the desktop bar and the mobile menu. */
  function Links(isAuthenticated: bool, user: Option<AuthUser>): (r: seq<NavLink>)
    ensures |r| >= 2 && r[..2] == [HomeLink, BooksLink]
    ensures MyBorrowingsLink in r <==> isAuthenticated
    ensures forall l :: l in AdminLinks ==> (l in r <==> Routes.IsLibrarian(user))
    ensures forall l :: l in r ==> l == HomeLink || l == BooksLink || l == MyBorrowingsLink || l in AdminLinks
  {
    [HomeLink, BooksLink]
    + (if isAuthenticated then [MyBorrowingsLink] else [])
    + (if Routes.IsLibrarian(user) then AdminLinks else [])
  }

  /** The session controls: the profile link and Logout, or Login and Register. */
  datatype Control = ProfileLink | LogoutButton | LoginLink | RegisterLink

  function Controls(isAuthenticated: bool): (r: seq<Control>)
    ensures isAuthenticated ==> r == [ProfileLink, LogoutButton]
    ensures !isAuthenticated ==> r == [LoginLink, RegisterLink]
  {
    if isAuthenticated then [ProfileLink, LogoutButton] else [LoginLink, RegisterLink]
  }

  /** The two pairs of controls never appear together: a session sees Logout
      exactly when it does not see Login. */
  lemma ControlsExclusive(isAuthenticated: bool)
    ensures LogoutButton in Controls(isAuthenticated) <==> LoginLink !in Controls(isAuthenticated)
    ensures ProfileLink in Controls(isAuthenticated) <==> RegisterLink !in Controls(isAuthenticated)
  {
  }

  /** Once the session has settled, the bar shows a link exactly when the route
      table lets the session see that page: no link leads to a guard's redirect,
      and no reachable page of the bar is left without its link. The store's
      invariant (a user means an authenticated session) is what lets the admin
      links go by the role alone. */
  lemma LinksMatchGuards(s: AuthStore.State, l: NavLink)
    requires !s.isLoading && AuthStore.UserImpliesAuthenticated(s)
    requires l == HomeLink || l == BooksLink || l == MyBorrowingsLink || l in AdminLinks
    ensures l in Links(s.isAuthenticated, s.user) <==> Routes.Show(Routes.PathOf(l.page), s) == Routes.Shows(l.page)
  {
    Routes.MatchPathOf(l.page);
    Routes.RouteTableGuards(Routes.PathOf(l.page), s);
  }

  /** The profile link points at a location the route table does not have: it
      leads back to "/". */
  lemma ProfileIsUnrouted(s: AuthStore.State)
    ensures Routes.Match(["profile"]).None?
    ensures Routes.Show(["profile"], s) == Routes.NavigateTo("/")
  {
  }

  /** `handleLogout`: the store's logout, then the login page. */
  method HandleLogout(store: AuthStore.Store) returns (effects: seq<Effect>)
    modifies store, store.storage
    ensures store.Snapshot() == AuthStore.AfterLogout(old(store.Snapshot()))
    ensures effects == [Navigate("/login")]
  {
    store.Logout();
    effects := [Navigate("/login")];
  }

  /** The mobile menu's open flag. */
  class Menu {
    var isMenuOpen: bool

    constructor ()
      ensures !isMenuOpen
    {
      isMenuOpen := false;
    }

    /** `toggleMenu`: the flag flips, so two toggles restore it. */
    method ToggleMenu()
      modifies this
      ensures isMenuOpen == !old(isMenuOpen)
    {
      isMenuOpen := !isMenuOpen;
    }

    /** `closeMenu`: the flag is cleared, whatever it was. */
    method CloseMenu()
      modifies this
      ensures !isMenuOpen
    {
      isMenuOpen := false;
    }

    /** The mobile Logout button: `handleLogout`, then `closeMenu`. */
    method MobileLogout(store: AuthStore.Store) returns (effects: seq<Effect>)
      modifies this, store, store.storage
      ensures store.Snapshot() == AuthStore.AfterLogout(old(store.Snapshot()))
      ensures effects == [Navigate("/login")]
      ensures !isMenuOpen
    {
      effects := HandleLogout(store);
      CloseMenu();
    }
  }
}
