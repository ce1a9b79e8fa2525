# Library management client — a Dafny model of its logic

The client is a React single-page application for a library service. Patrons
browse the catalogue, borrow and return books and see their loans. Librarians
manage books, users and all loans. Beneath the markup sit small pieces of logic,
and this project models them, one Dafny module per source file:

- the session store (`AuthStore`): four fields and the two persisted keys
  `"token"` and `"user"`;
- the service layer (`Api`): token expiry by the JWT `exp` claim (section
  4.1.4 of RFC 7519), the Bearer header (section 2.1 of RFC 6750), the 401
  handler and the query strings of the catalogue requests;
- the route guards and route table (`Routes`);
- the navigation bar (`Navbar`);
- the book views (`BookCard`, `BookDetail`, `BookList`, `BookSearch`);
- the loan views (`BorrowingCard`, `BorrowingList`, `AdminBorrowings`);
- the pagination window (`Pagination`);
- the three validated forms (`BookForm`, `RegisterForm`, `UserForm`), with
  their shared field rules and regular expressions in `Validation`;
- the two librarian pages with a form (`AdminBooks`, `AdminUsers`).

Conventions:

- Imperative code stays imperative. The store, the local storage, the menu
  flag, the search record, the return and report flags and the two admin
  pages are classes whose methods update fields. Each such method is proved
  equal to a pure function of the old state, or states the whole new state.
  `getPageNumbers` is a loop proved against the function it computes.
- Effects the program hands to libraries are returned as values of
  `Effects.Effect`: navigation, toasts, API calls and cache refetches.
- The clock, `jwtDecode`, `JSON.parse`, `JSON.stringify`, the outcome of
  awaited calls and `window.confirm` are parameters.
- JavaScript truthiness is kept: an empty string counts as absent, exactly as
  `if (!token)` or `params.title ||` treat it.

Several behaviours of the code are modelled as written, and proved:

- The store keeps only `user != null ⇒ isAuthenticated`. The converse is
  broken by a successful `register`, which authenticates without a user
  (`AuthStore.RegisterBreaksConverse`), and by a restore whose stored user does
  not parse (`AuthStore.InitializeBreaksConverse`).
- Login and register call the backend through the shared axios instance, so a
  first 401 (wrong credentials, say) passes the response interceptor before the
  store's `catch`: the session keys are removed and the browser is sent to
  `/login`, while the store's fields keep the old user next to the message
  (`AuthStore.UnauthorizedFailureSignsOut`).
- The store's `register` resolves to `undefined`, so the sign-up form never
  shows its success toast and never navigates
  (`RegisterForm.SuccessIsNeverAcknowledged`). The form reads a
  `registerError` the store does not have, so its error banner never shows
  (`RegisterForm.FailureIsNeverShown`).
- The librarian's Edit button on the book page goes to
  `/admin/books/edit/{id}`, and the Profile link goes to `/profile`. Neither
  location is in the route table, so both land on `/`
  (`BookDetail.EditTargetIsUnrouted`, `Navbar.ProfileIsUnrouted`).
- The three selects of the admin forms (genre, role, status) spread
  `register(...)` after their own `onChange`. react-hook-form's handler thus
  replaces `handleGenreChange`, `handleRoleChange` and `handleStatusChange`,
  and `Select` calls it with the chosen value instead of an event, so nothing
  is stored: the submitted genre, role and status are always the default ones.
  A new book keeps the genre "" and can never be submitted
  (`BookForm.NewBookNeverSubmits`); an edited book keeps its genre
  (`BookForm.EditSubmitsBookGenre`); a new user is always an active patron and
  an edited user keeps role and status (`UserForm.SelectsKeepDefaults`).
- The book form's default page count, 0, also fails its own minimum
  (`BookForm.DefaultPageCountBlocksSubmit`).
- The admin loan table reads the clock twice per row, once for the badge's
  variant and once for its caption; a loan falling due between the two reads
  gets a "primary" badge captioned "Overdue"
  (`AdminBorrowings.LabelAndVariantInLockstep`).
- The search text on the admin pages changes only the query's cache key, never
  the request sent (`AdminBooks.Manager.SetSearch`, `AdminUsers.Manager.SetSearch`).

## Model

| member | source | states |
|---|---|---|
| Api.Stored | src/services/api.ts:71-72 | a storage key reads as present exactly when it holds a non-empty string, and then yields that string |
| Api.IsTokenValid | src/services/api.ts:70-80 | a token is valid iff one is stored, it decodes, its `exp` claim is present and `exp*1000` (fractional seconds included) is strictly later than now; a missing token is never valid |
| Api.TokenExpiryIsPermanent | src/services/api.ts:74-76 | a token valid at a later instant was valid at every earlier one, and is invalid at every instant from `exp*1000` on |
| Api.GetCurrentUser | src/services/api.ts:82-91 | no identity when "user" is absent or empty; otherwise exactly what parsing the stored string gives, none when it does not parse |
| Api.ClearSession | src/services/api.ts:93-96 | removes "token" and "user" and keeps every other key with its value |
| Api.ClearSessionIdempotent | src/services/api.ts:93-96 | clearing the session twice is the same as clearing it once |
| Api.Logout | src/services/api.ts:93-96 | the storage afterwards is the old storage with the session cleared |
| Api.AttachToken | src/services/api.ts:29-38 | with a stored token the Authorization header is set to "Bearer " plus the token; without one the request is unchanged |
| Api.AttachTokenRoundTrip | src/services/api.ts:29-38 | a server reading the Bearer credential out of the header gets back exactly the stored token; without a token the header is present only if it already was |
| Api.OnResponseError | src/services/api.ts:41-56 | the error is always re-rejected unchanged; a 401 not marked as a retry clears the session and redirects to "/login"; any other error leaves storage alone and does not redirect |
| Api.LookupSearchQuery | src/services/api.ts:114-123 | reading any key of the built query gives the filter when it is non-empty, page and size whenever they are defined (0 included), and nothing otherwise |
| Api.SearchQueryRoundTrip | src/services/api.ts:114-123 | reading the query back yields the parameters with empty filters dropped and page and size kept exactly |
| Api.SearchQueryOrdered | src/services/api.ts:116-123 | keys occur in the order title, author, isbn, genre, page, size, each at most once |
| Api.SearchBooks | src/services/api.ts:111-129 | the successive appends build the request to "/books/search" whose query is the one the round-trip lemmas describe |
| Api.GetAllBooks | src/services/api.ts:101-109 | requests "/books" with page and size, defaulting to 0 and 10 |
| Api.GetAllUsers | src/services/api.ts:173-181 | requests "/users" with page and size, defaulting to 0 and 10 |
| AuthStore.ErrorMessage | src/store/authStore.ts:64-69 | an `Error` contributes its own message; any other thrown value gives the action's fixed fallback |
| AuthStore.Store.constructor | src/store/authStore.ts:23-27 | the store starts with no user, unauthenticated, loading, with no error |
| AuthStore.Store.Initialize | src/store/authStore.ts:29-40 | the fields and storage afterwards are the restore transition of the old ones |
| AuthStore.Store.Login | src/store/authStore.ts:42-73 | the fields and storage afterwards are the login transition for the call's outcome, a rejection having passed the response interceptor; the redirect returned is the interceptor's |
| AuthStore.Store.Register | src/store/authStore.ts:75-98 | the fields and storage afterwards are the register transition for the call's outcome, a rejection having passed the response interceptor; the redirect returned is the interceptor's |
| AuthStore.Store.Logout | src/store/authStore.ts:100-103 | the fields and storage afterwards are the logout transition of the old ones |
| AuthStore.InitializeWithValidToken | src/store/authStore.ts:29-34 | with a valid token: user is the stored identity (possibly none), authenticated, not loading, error and storage unchanged |
| AuthStore.InitializeWithoutValidToken | src/store/authStore.ts:35-39 | without a valid token: both keys removed, no user, unauthenticated, not loading, error unchanged |
| AuthStore.PendingClearsError | src/store/authStore.ts:43 | before awaiting, login and register set loading and clear the error, and touch nothing else |
| AuthStore.LoginSucceeds | src/store/authStore.ts:42-61 | a successful login stores the token and the serialised `{username, role}`, leaves other keys alone, and ends signed in with no error |
| AuthStore.FailureKeepsSession | src/store/authStore.ts:62-72 | a failed login or register that is not a first 401 stops loading and records the message, leaving user, flag and storage unchanged and redirecting nowhere |
| AuthStore.UnauthorizedFailureSignsOut | src/services/api.ts:41-68 | a first 401 on login or register removes both keys and redirects to "/login", while the store keeps its user and flag next to the message; the restore after the redirect is signed out |
| AuthStore.RegisterSucceeds | src/store/authStore.ts:75-87 | a successful register sets authenticated, stops loading and clears the error, touching neither user nor storage |
| AuthStore.LogoutClearsIdentity | src/store/authStore.ts:100-103 | logout removes both keys and the user, unauthenticates, and leaves loading and error |
| AuthStore.LogoutIdempotent | src/store/authStore.ts:100-103 | logging out twice is the same as logging out once |
| AuthStore.TransitionsKeepInvariant | src/store/authStore.ts:23-103 | the initial state and every transition keep "a user implies authenticated" |
| AuthStore.RegisterBreaksConverse | src/store/authStore.ts:87 | after logout, a successful register is authenticated with no user |
| AuthStore.InitializeBreaksConverse | src/store/authStore.ts:32-34 | a valid token next to an unparsable stored user restores an authenticated session with no user |
| AuthStore.LoginThenInitializeRestoresUser | src/store/authStore.ts:29-61 | what login persists, a later restore gives back while the token is live and parsing inverts serialising |
| Routes.ProtectedRoute | src/routes/index.tsx:25-43 | spinner iff loading; redirect to "/login" iff settled and unauthenticated; children iff settled and authenticated |
| Routes.LibrarianRoute | src/routes/index.tsx:45-63 | spinner iff loading; children iff settled, authenticated and a librarian; redirect to "/" otherwise |
| Routes.LibrarianRouteImpliesProtectedRoute | src/routes/index.tsx:38-58 | whenever the librarian guard renders, so does the protected guard, and both show the spinner in the same states |
| Routes.MatchPathOf | src/routes/index.tsx:76-118 | every page of the table is matched by its own location |
| Routes.PathOfMatch | src/routes/index.tsx:76-118 | a matched location is exactly the location of the page it matches |
| Routes.Show | src/routes/index.tsx:76-118 | an unmatched location navigates to "/", and a page shown is the page matched |
| Routes.RouteTableGuards | src/routes/index.tsx:81-118 | public pages always show; "my-borrowings" shows iff settled and authenticated; admin pages show iff settled librarian; guarded pages spin while loading; anything else goes to "/" |
| Routes.AdminPagesAreLibrarianOnly | src/routes/index.tsx:94-117 | a page sits behind the librarian guard iff its location is one of the two-segment "admin/..." ones |
| Routes.NoSpinnerAfterInitialize | src/routes/index.tsx:123-128 | once the mount-time restore completes, no location shows the spinner |
| Navbar.Links | src/components/layout/Navbar.tsx:56-99 | Home and Books always lead; "My Borrowings" iff authenticated; each admin link iff the user is a librarian; no other links |
| Navbar.Controls | src/components/layout/Navbar.tsx:105-136 | authenticated sessions get Profile and Logout, others Login and Register |
| Navbar.ControlsExclusive | src/components/layout/Navbar.tsx:225-263 | Logout appears iff Login does not, and Profile iff Register does not |
| Navbar.LinksMatchGuards | src/components/layout/Navbar.tsx:69-99 | in a settled session keeping the store invariant, a link is shown iff the route table would show its page |
| Navbar.ProfileIsUnrouted | src/components/layout/Navbar.tsx:107-108 | "/profile" matches no route, and following it sends the browser to "/" |
| Navbar.HandleLogout | src/components/layout/Navbar.tsx:25-28 | runs the store's logout transition, then navigates to "/login" |
| Navbar.Menu.constructor | src/components/layout/Navbar.tsx:20 | the mobile menu starts closed |
| Navbar.Menu.ToggleMenu | src/components/layout/Navbar.tsx:30-32 | flips the menu flag, so toggling twice restores it |
| Navbar.Menu.CloseMenu | src/components/layout/Navbar.tsx:34-36 | the menu is closed afterwards, whatever it was |
| Navbar.Menu.MobileLogout | src/components/layout/Navbar.tsx:237-240 | logs out, navigates to "/login" and closes the menu |
| Pagination.Range | src/components/ui/Pagination.tsx:26-32 | the loop's pages are the consecutive integers from the lower bound to the upper, none when the bounds cross |
| Pagination.Insert | src/components/ui/Pagination.tsx:40 | inserting into a strictly increasing list keeps it strictly increasing and adds exactly the new value |
| Pagination.SortedDistinct | src/components/ui/Pagination.tsx:40 | the Set-and-sort step gives a strictly increasing list with the same members |
| Pagination.IncreasingDeterminedByValues | src/components/ui/Pagination.tsx:40 | two strictly increasing lists with the same members are equal |
| Pagination.SortedDistinctOfIncreasing | src/components/ui/Pagination.tsx:40 | de-duplicating and sorting an already strictly increasing list changes nothing |
| Pagination.PushedIncreasing | src/components/ui/Pagination.tsx:23-37 | the pushes already produce a strictly increasing list |
| Pagination.PageNumbersArePushed | src/components/ui/Pagination.tsx:23-40 | the returned list is exactly the pushed one, so the Set and the sort are no-ops |
| Pagination.PageNumbersMembers | src/components/ui/Pagination.tsx:23-37 | a page is listed iff it is 0, the last page when there are several, or in [max(1, cur-1), min(total-2, cur+1)] |
| Pagination.PageNumbersEnds | src/components/ui/Pagination.tsx:23-37 | with several pages the list runs from 0 to the last page |
| Pagination.PageNumbersWindow | src/components/ui/Pagination.tsx:23-37 | strictly increasing, holds 0 and the last page, at most 5 entries, all in range, and includes the current page when it is in range |
| Pagination.GetPageNumbers | src/components/ui/Pagination.tsx:19-41 | the loop returns exactly the window described above |
| Pagination.Buttons | src/components/ui/Pagination.tsx:61-91 | one button per listed page, emitting its page, captioned page+1, highlighted iff current, with an ellipsis iff it jumps more than 1 past its predecessor |
| Pagination.Pagination | src/components/ui/Pagination.tsx:43 | nothing is rendered iff there is at most one page |
| Pagination.NavigationStaysInRange | src/components/ui/Pagination.tsx:51-98 | Prev is disabled iff on the first page and Next iff on the last; they emit cur-1 and cur+1, in range whenever enabled |
| Pagination.PageButtonsStayInRange | src/components/ui/Pagination.tsx:83-88 | every page button emits a page in range and is captioned that page plus one |
| Pagination.OneButtonHighlighted | src/components/ui/Pagination.tsx:69-83 | a current page in range has a highlighted button, and no two buttons are highlighted |
| Pagination.HiddenPagesAreMarked | src/components/ui/Pagination.tsx:62-64 | every page without a button lies in a gap marked by an ellipsis |
| Pagination.EllipsesHidePages | src/components/ui/Pagination.tsx:62-64 | every ellipsis stands for at least one page in range without a button |
| BorrowingCard.StatusBadge | src/components/borrowings/BorrowingCard.tsx:28-38 | the badge is one of Returned, Overdue or Active |
| BorrowingCard.StatusPriority | src/components/borrowings/BorrowingCard.tsx:24-38 | Returned iff a return date is set; Overdue iff none and strictly past due; Active otherwise; overdue implies active |
| BorrowingCard.OverdueIsPermanent | src/components/borrowings/BorrowingCard.tsx:24-25 | an overdue loan stays overdue at every later instant |
| BorrowingCard.Card | src/components/borrowings/BorrowingCard.tsx:40-100 | the Return button exists iff the loan is active and onReturn is supplied; it emits the loan id and is disabled iff loading; the footer shows iff not active; the due date is highlighted iff overdue |
| BorrowingCard.ButtonOrFooter | src/components/borrowings/BorrowingCard.tsx:80-99 | with onReturn supplied, a card shows the Return button or the Returned footer, never both and never neither |
| AdminBorrowings.Label | src/pages/admin/Borrowings.tsx:117-121 | "Returned" iff a return date is set, "Overdue" iff none and strictly past due, "Active" otherwise |
| AdminBorrowings.LabelAndVariantInLockstep | src/pages/admin/Borrowings.tsx:108-121 | with the variant's clock read no later than the label's, the variant is success, error or primary exactly when the label is Returned, Overdue or Active, unless the due date falls between the two reads, when an unreturned loan is "primary" yet "Overdue" |
| AdminBorrowings.AgreesWithBorrowingCard | src/pages/admin/Borrowings.tsx:108-121 | for the same loan and instant, the librarian table and the patron card show the same badge |
| AdminBorrowings.MarkReturnedOnActiveLoans | src/pages/admin/Borrowings.tsx:123-131 | "Mark as Returned" is offered iff the loan is active, that is iff its label is not Returned |
| AdminBorrowings.HandleReturn | src/pages/admin/Borrowings.tsx:31-37 | a return is issued iff confirmed, and for exactly the given loan |
| AdminBorrowings.ReportDownload.constructor | src/pages/admin/Borrowings.tsx:39-56 | the report flag starts lowered |
| AdminBorrowings.ReportDownload.Start | src/pages/admin/Borrowings.tsx:41 | the flag is raised while the download runs |
| AdminBorrowings.ReportDownload.Finish | src/pages/admin/Borrowings.tsx:51-55 | the flag is lowered on success and on failure; only failure toasts |
| BorrowingList.HistoryFilter | src/components/borrowings/BorrowingList.tsx:106-107 | the history keeps only loans with a return date, and no more of them than it was given |
| BorrowingList.HistoryFilterKeepsReturned | src/components/borrowings/BorrowingList.tsx:106-107 | every returned loan survives the filter |
| BorrowingList.HistoryFilterAppend | src/components/borrowings/BorrowingList.tsx:106-107 | filtering a concatenation concatenates the filtered parts, so the original order is kept |
| BorrowingList.HistoryFilterIdempotent | src/components/borrowings/BorrowingList.tsx:106-107 | filtering twice is filtering once |
| BorrowingList.Cards | src/components/borrowings/BorrowingList.tsx:88-109 | one card per loan, in order, each the card of that loan |
| BorrowingList.View | src/components/borrowings/BorrowingList.tsx:52-78 | the spinner shows iff either query loads; "no borrowings" iff neither loads and both lists are absent or empty |
| BorrowingList.ReturnButtonsOnlyInActiveSection | src/components/borrowings/BorrowingList.tsx:88-109 | active loans in the active section carry a Return button for their id; history cards never do and show the Returned footer |
| BorrowingList.ReturnFlow.constructor | src/components/borrowings/BorrowingList.tsx:29-46 | no return is in progress at first |
| BorrowingList.ReturnFlow.HandleReturnBook | src/components/borrowings/BorrowingList.tsx:32-50 | the flag is raised and exactly that loan is returned |
| BorrowingList.ReturnFlow.OnSuccess | src/components/borrowings/BorrowingList.tsx:35-40 | the flag is lowered, and both the active and the history queries are refetched |
| BorrowingList.ReturnFlow.OnError | src/components/borrowings/BorrowingList.tsx:41-45 | the flag is lowered, an error toast shows, and nothing is called |
| BookCard.AvailabilityBadge | src/components/books/BookCard.tsx:21-32 | "Available" iff copies are left, "Unavailable" otherwise |
| BookCard.Card | src/components/books/BookCard.tsx:21-76 | the Borrow button exists iff onBorrow is supplied, emits the book id, and is disabled iff unavailable or loading |
| BookCard.BorrowOnlyWhenAvailable | src/components/books/BookCard.tsx:66-71 | a click can borrow iff the button exists, a copy is left and nothing is loading, and then it borrows this book |
| BookCard.GenreAndLink | src/components/books/BookCard.tsx:47-56 | the genre is shown lower-cased, and the details link is the location the route table serves the book's page at |
| BookDetail.View | src/components/books/BookDetail.tsx:62-88 | spinner iff loading; "not found" iff settled with no book; otherwise the availability badge of the card |
| BookDetail.BorrowOrEdit | src/components/books/BookDetail.tsx:153-175 | librarians, and only they, get Edit, aimed at `admin/books/edit/{id}`; everyone else gets Borrow, disabled iff no copy is left or a borrow is pending |
| BookDetail.EditTargetIsUnrouted | src/components/books/BookDetail.tsx:169 | the Edit target matches no route, so in every session it lands on "/" |
| BookDetail.HandleBorrow | src/components/books/BookDetail.tsx:46-56 | anonymous: a login prompt and navigation to "/login"; signed in with an id: one borrow of that id; signed in without an id: nothing |
| BookDetail.BorrowNeedsSession | src/components/books/BookDetail.tsx:46-56 | anonymous visitors issue no call; signed-in visitors issue exactly the borrow of the page's book |
| BookDetail.OnBorrowSuccess | src/components/books/BookDetail.tsx:36-39 | success only refetches the book and calls nothing |
| BookList.RequestShape | src/components/books/BookList.tsx:19-34 | the search endpoint is used iff a filter is non-empty; the request always asks for the current page, 12 to a page, with the non-empty filters |
| BookList.Catalogue.constructor | src/components/books/BookList.tsx:17-18 | the catalogue starts with no filters on page 0 |
| BookList.Catalogue.HandleSearch | src/components/books/BookList.tsx:48-51 | the filters are replaced and the page is reset to 0, so the next request asks for page 0 |
| BookList.Catalogue.HandlePageChange | src/components/books/BookList.tsx:63-65 | the page changes and the filters, hence the endpoint, stay |
| BookList.HandleBorrow | src/components/books/BookList.tsx:53-61 | anonymous visitors are sent to "/login" with no call; signed-in visitors borrow exactly that book |
| BookList.OnBorrowSuccess | src/components/books/BookList.tsx:38-41 | success only refetches the list |
| BookList.Cards | src/components/books/BookList.tsx:78-85 | one card per book, in order, each with Borrow and the shared pending flag |
| BookList.PendingBorrowDisablesAllCards | src/components/books/BookList.tsx:83 | while a borrow is pending no card can borrow; otherwise a card borrows its own book iff a copy is left |
| BookSearch.OrEmpty | src/components/books/BookSearch.tsx:21-24 | a truthy initial value is kept, anything else becomes "" |
| BookSearch.InitialFieldsRoundTrip | src/components/books/BookSearch.tsx:20-44 | the conversion from `initialParams` to the form's fields inverts the conversion a submit applies |
| BookSearch.SearchForm.constructor | src/components/books/BookSearch.tsx:20-25 | each field starts from the initial parameter or "" |
| BookSearch.SearchForm.HandleInputChange | src/components/books/BookSearch.tsx:32-35 | only the named field takes the new value |
| BookSearch.SearchForm.HandleGenreChange | src/components/books/BookSearch.tsx:37-39 | only the genre takes the new value |
| BookSearch.SearchForm.HandleSubmit | src/components/books/BookSearch.tsx:41-44 | the current record is emitted unchanged |
| BookSearch.SearchForm.HandleClear | src/components/books/BookSearch.tsx:46-54 | all four fields become "" and `{}` is emitted |
| BookSearch.ClearMatchesEmptySubmit | src/components/books/BookSearch.tsx:46-54 | submitting four empty fields is a different record from `{}`, yet it makes the catalogue send the same request |
| BookSearch.GenreList | src/components/books/BookSearch.tsx:59-62 | one option per genre, in order, none before the genres load |
| BookSearch.GenreOptionsShape | src/components/books/BookSearch.tsx:56-64 | "All Genres" with value "" comes first, then each genre as its own value with a capitalised label; relabelling a label changes nothing |
| Text.LowerAll | src/components/books/BookCard.tsx:47 | lower-cases every character and keeps the length |
| Text.Capitalize | src/components/books/BookSearch.tsx:61 | first character upper-cased, the rest lower-cased, length kept |
| Text.CapitalizeIdempotent | src/components/books/BookSearch.tsx:61 | capitalising a label again changes nothing |
| Validation.GroupsCharacterised | src/components/admin/BookForm.tsx:74 | a string is k groups of "digit, optional separator" iff it has the ISBN shape and exactly k digits |
| Validation.IsbnPatternCharacterised | src/components/admin/BookForm.tsx:74 | the ISBN pattern holds iff the string starts with a digit, never has two separators in a row, and has 10 to 13 digits |
| Validation.PatternGivesShape | src/components/auth/RegisterForm.tsx:101 | a string split as the e-mail pattern describes has one '@', allowed characters, and a last '.' with a character before and two letters after |
| Validation.ShapeGivesPattern | src/components/auth/RegisterForm.tsx:101 | any string of that shape matches the e-mail pattern |
| Validation.EmailPatternCharacterised | src/components/auth/RegisterForm.tsx:101 | the e-mail pattern holds iff the string has that shape |
| Validation.RequiredError | src/components/admin/BookForm.tsx:64 | a required field fails iff it is empty, with the field's own message |
| Validation.EmailError | src/components/auth/RegisterForm.tsx:98-104 | "Email is required" iff empty, "Invalid email address" iff non-empty and not of e-mail shape, no error otherwise |
| Validation.PasswordError | src/components/auth/RegisterForm.tsx:112-118 | no error iff at least 8 characters; "Password is required" iff empty |
| Validation.IsbnError | src/components/admin/BookForm.tsx:71-77 | no error iff the ISBN pattern holds; "ISBN is required" iff empty |
| Validation.AtLeastOneError | src/components/admin/BookForm.tsx:99-105 | a number fails its minimum iff below 1, with the field's message |
| Validation.Collect | src/components/admin/BookForm.tsx:58-134 | the form has no errors iff every rule passes |
| BookForm.ErrorsEmptyWhenAllPass | src/components/admin/BookForm.tsx:61-134 | the book form has no errors iff each of its seven fields passes its rules |
| BookForm.SubmitAccepts | src/components/admin/BookForm.tsx:64-133 | a record is submitted iff name, author, publisher and genre are non-empty, the ISBN matches, and pages and quantity are at least 1; it is submitted unchanged |
| BookForm.DefaultsBreakPagesButNotQuantity | src/components/admin/BookForm.tsx:31-120 | from the defaults the quantity passes while the page count fails with "Pages must be at least 1", and the full error list is the one the empty fields give |
| BookForm.DefaultPageCountBlocksSubmit | src/components/admin/BookForm.tsx:36-104 | any record still holding the default page count cannot be submitted |
| BookForm.NewBookNeverSubmits | src/components/admin/BookForm.tsx:31-133 | since the genre select stores nothing, a new book keeps the genre "" and is never submitted, with "Genre is required" |
| BookForm.EditSubmitsBookGenre | src/components/admin/BookForm.tsx:126-133 | an edit submits the book's own genre, the one the select keeps showing, with the typed values of the other fields |
| BookForm.GenreOptionsAsInSearch | src/components/admin/BookForm.tsx:51-56 | the form's genre options are the search form's without the leading "All Genres" |
| BookForm.SubmitLabel | src/components/admin/BookForm.tsx:153 | "Update Book" iff initial data with a non-empty name is given, "Add Book" otherwise |
| BookForm.EditStartsFromBook | src/components/admin/BookForm.tsx:31-39 | an edit starts from the book's own fields and is labelled Update iff the book has a name; a creation starts from the defaults as Add |
| RegisterForm.ConfirmError | src/components/auth/RegisterForm.tsx:126-129 | the confirmation passes iff non-empty and equal to the password; "Passwords do not match" iff non-empty and different |
| RegisterForm.ErrorsEmptyWhenAllPass | src/components/auth/RegisterForm.tsx:72-131 | the sign-up form has no errors iff each of its six fields passes its rules |
| RegisterForm.SubmitAccepts | src/components/auth/RegisterForm.tsx:75-129 | a record is submitted iff the names and username are non-empty, the e-mail has the e-mail shape, the password has 8 characters and the confirmation equals it |
| RegisterForm.AfterResolve | src/components/auth/RegisterForm.tsx:42-45 | the success toast and the navigation to "/login" happen iff the awaited result is truthy, with no call |
| RegisterForm.SuccessIsNeverAcknowledged | src/components/auth/RegisterForm.tsx:33-46 | since the store's register resolves undefined, submitting never toasts success nor navigates; a resolved call only runs the store's transition; the page is left only by the interceptor's redirect on a first 401 |
| RegisterForm.ErrorBanner | src/components/auth/RegisterForm.tsx:64-68 | the banner shows iff the error is non-empty, and shows that error |
| RegisterForm.FailureIsNeverShown | src/components/auth/RegisterForm.tsx:21 | a failed register records an error in the store, but the banner reads a field the store lacks and never shows |
| UserForm.RoleOptionsMatchRoles | src/components/admin/UserForm.tsx:38-46 | exactly two distinct options, one per role, captioned as the role capitalised; every option names a role; the default is PATRON |
| UserForm.StatusOptionsMatchStatuses | src/components/admin/UserForm.tsx:39-51 | exactly two distinct options, one per status, captioned as the status capitalised; every option names a status; the default is ACTIVE |
| UserForm.Registered | src/components/admin/UserForm.tsx:64-114 | the password field is registered iff not editing; username, e-mail and names always are |
| UserForm.ErrorsEmptyWhenAllPass | src/components/admin/UserForm.tsx:64-114 | the user form has no errors iff each registered field passes its rules |
| UserForm.SubmitAccepts | src/components/admin/UserForm.tsx:67-112 | a record is submitted iff username and names are non-empty, the e-mail has the e-mail shape and, when creating, the password has 8 characters; it is submitted unchanged |
| UserForm.SelectsKeepDefaults | src/components/admin/UserForm.tsx:116-133 | since the selects store nothing, a submitted record has the default role and status (PATRON and ACTIVE for a new user), and whether it submits depends only on the typed fields |
| UserForm.EditIgnoresPassword | src/components/admin/UserForm.tsx:86-100 | when editing, the password has no bearing on whether the form submits |
| UserForm.SameEmailRuleAsSignUp | src/components/admin/UserForm.tsx:76-82 | the user form judges an e-mail exactly as the sign-up form does |
| UserForm.View | src/components/admin/UserForm.tsx:69-152 | username input disabled iff editing; password shown iff registered; "Update User" iff editing, "Add User" otherwise |
| AdminBooks.Manager.ListRequest | src/pages/admin/Books.tsx:20-23 | the list request asks "/books" for the current page, ten to a page, with no filter |
| AdminBooks.Manager.constructor | src/pages/admin/Books.tsx:15-18 | page 0, empty search, form closed, nothing selected |
| AdminBooks.Manager.SetSearch | src/pages/admin/Books.tsx:20-23 | the search text changes the cache key but not the request, and nothing else |
| AdminBooks.Manager.SetPage | src/pages/admin/Books.tsx:159 | only the page changes |
| AdminBooks.Manager.HandleEdit | src/pages/admin/Books.tsx:36-39 | the book is selected and the form opened |
| AdminBooks.Manager.OpenCreate | src/pages/admin/Books.tsx:69-73 | the selection is cleared and the form opened |
| AdminBooks.Manager.Cancel | src/pages/admin/Books.tsx:99-102 | the form is closed and the selection cleared |
| AdminBooks.Manager.HandleFormSubmit | src/pages/admin/Books.tsx:47-62 | updates the selected book or else creates one, never both; success closes the form, clears the selection, toasts and refetches; failure toasts "Operation failed" and changes nothing |
| AdminBooks.CreateOrUpdateAgree | src/pages/admin/Books.tsx:51-97 | the form title, the success message and the form's own label all say "edit" exactly when a book is selected (the label also needs its name); a creation starts from the defaults |
| AdminBooks.HandleDelete | src/pages/admin/Books.tsx:41-45 | a delete is issued iff confirmed, for exactly that book |
| AdminBooks.OnDeleteSettled | src/pages/admin/Books.tsx:25-34 | the list is refetched iff the delete succeeded, and nothing is called |
| AdminBooks.RowBadgeAgreesWithCard | src/pages/admin/Books.tsx:125-131 | a row's badge is success iff copies are left, the same variant as the catalogue card |
| AdminUsers.Manager.ListRequest | src/pages/admin/Users.tsx:20-23 | the list request asks "/users" for the current page, ten to a page, with no filter |
| AdminUsers.Manager.constructor | src/pages/admin/Users.tsx:15-18 | page 0, empty search, form closed, nothing selected |
| AdminUsers.Manager.SetSearch | src/pages/admin/Users.tsx:20-23 | the search text changes the cache key but not the request, and nothing else |
| AdminUsers.Manager.SetPage | src/pages/admin/Users.tsx:189 | only the page changes |
| AdminUsers.Manager.HandleEdit | src/pages/admin/Users.tsx:47-50 | the user is selected, the form opened, in editing mode |
| AdminUsers.Manager.OpenCreate | src/pages/admin/Users.tsx:86-90 | the selection is cleared and the form opened, not editing |
| AdminUsers.Manager.Cancel | src/pages/admin/Users.tsx:116-119 | the form is closed and the selection cleared |
| AdminUsers.Manager.HandleFormSubmit | src/pages/admin/Users.tsx:64-79 | updates the selected user or else creates one; success closes the form, clears the selection, toasts and refetches; failure toasts "Operation failed" and changes nothing |
| AdminUsers.CreateOrUpdateAgree | src/pages/admin/Users.tsx:68-120 | title, message and form mode all say "edit" exactly when a user is selected; an edit starts from the user's username, a creation from the defaults |
| AdminUsers.HandleDelete | src/pages/admin/Users.tsx:52-56 | a delete is issued iff confirmed, for exactly that user |
| AdminUsers.HandleDeactivate | src/pages/admin/Users.tsx:58-62 | a deactivation is issued iff confirmed, for exactly that user |
| AdminUsers.DeactivateOnlyActiveUsers | src/pages/admin/Users.tsx:147-169 | Deactivate is offered iff the user is ACTIVE, exactly when the status badge is success, and then deactivates that user iff confirmed |
| AdminUsers.OnRowMutationSettled | src/pages/admin/Users.tsx:25-45 | after a delete or deactivation the list is refetched iff it succeeded, and nothing is called |

## Left out

- Markup, styling, animation and icons; only the decisions the markup makes are modelled.
- Network, caching and browser effects (axios, React Query, toasts, `window.confirm`, `window.location`, router navigation) are returned as effect values or taken as parameters, not performed.
- The clock is an integer of milliseconds; date-string parsing and date formatting are not modelled.
- `jwtDecode`, `JSON.parse` and `JSON.stringify` are function parameters; a `JSON.parse` that yields a non-object is treated like a parse failure.
- A 401 error without `error.config` would throw inside the response handler; the model assumes the config is present.
- `URLSearchParams` percent-encoding and its string form: a query is modelled as its ordered key–value pairs.
- Router details: case-insensitive matching and trailing slashes are not modelled; locations are lists of segments.
- Each asynchronous action is one atomic step; interleaved or stale responses are not modelled.
- The PDF blob download in src/pages/admin/Borrowings.tsx is reduced to its flag and failure toast.
- src/pages/admin/Borrowings.tsx:24 calls an undeclared `refetch`, so a successful return there throws in the handler; that handler is not modelled.
- LoginForm and the login and register pages are thin wiring around the store and are not part of this model.
- Browser-side checks of `type="email"` and `type="number"` inputs, and a number input left empty (`NaN`), are not modelled; number fields are integers.
- Case mapping is ASCII only; `toUpperCase`/`toLowerCase` on other characters are not modelled.
- The record a form submits is modelled as its own fields; extra fields carried over from an edited book or user are not.
- A form's default values are modelled as read when it opens; react-hook-form not refreshing them when the selection changes while the form is open is not modelled.
- The disabled username input's effect on the submitted value is not modelled; `UserForm.View` states only that it is disabled.
- Button.tsx's rule that a loading button is disabled is taken as given (`Button.Disabled`), not modelled further.
