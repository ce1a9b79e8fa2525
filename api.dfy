// The service layer of src/services/api.ts: persisted session keys, token
// expiry, the two axios interceptors and the query strings of the book listing.

module Api {
  import opened Types

  const TokenKey := "token"
  const UserKey := "user"

  /** The browser's `localStorage`, one shared instance. */
  class LocalStorage {
    var items: map<string, string>

    constructor (items: map<string, string>)
      ensures this.items == items
    {
      this.items := items;
    }

    method SetItem(key: string, value: string)
      modifies this
      ensures items == old(items)[key := value]
    {
      items := items[key := value];
    }

    method RemoveItem(key: string)
      modifies this
      ensures items == old(items) - {key}
    {
      items := items - {key};
    }
  }

  /** `localStorage.getItem(key)` as a condition sees it: missing and "" are both falsy. */
  function Stored(items: map<string, string>, key: string): (r: Option<string>)
    ensures r.Some? <==> key in items && items[key] != ""
    ensures r.Some? ==> r.value == items[key]
  {
    if key in items && items[key] != "" then Some(items[key]) else None
  }

  /** The claims `jwtDecode` yields; `exp` is the expiry in seconds (a NumericDate,
      section 2 of RFC 7519, which may have a fraction) and may be missing. */
  datatype Claims = Claims(exp: Option<real>)

  /** `decoded.exp * 1000 > Date.now()`: the expiry in milliseconds against the
      clock's whole milliseconds. */
  predicate ExpiresAfter(exp: real, now: int) {
    exp * 1000.0 > now as real
  }

  /** `authService.isTokenValid`, with `jwtDecode` as `decode` (None when it throws) and
      `Date.now()` as `now` in milliseconds. */
  function IsTokenValid(items: map<string, string>, decode: string -> Option<Claims>, now: int): (valid: bool)
    ensures Stored(items, TokenKey).None? ==> !valid
    ensures valid <==>
      && Stored(items, TokenKey).Some?
      && decode(items[TokenKey]).Some?
      && decode(items[TokenKey]).value.exp.Some?
      && ExpiresAfter(decode(items[TokenKey]).value.exp.value, now)
  {
    match Stored(items, TokenKey)
    case None => false
    case Some(token) =>
      match decode(token)
      case None => false
      // `undefined * 1000 > now` is false
      case Some(claims) => claims.exp.Some? && ExpiresAfter(claims.exp.value, now)
  }

  /** Expiry is permanent: a token invalid at one instant stays invalid afterwards,
      and from the millisecond `exp * 1000` on (a fractional one included) it is past. */
  lemma TokenExpiryIsPermanent(items: map<string, string>, decode: string -> Option<Claims>, now: int, later: int)
    requires now <= later
    ensures IsTokenValid(items, decode, later) ==> IsTokenValid(items, decode, now)
    ensures Stored(items, TokenKey).Some? && decode(items[TokenKey]).Some? && decode(items[TokenKey]).value.exp.Some?
            && later as real >= decode(items[TokenKey]).value.exp.value * 1000.0
            ==> !IsTokenValid(items, decode, later)
  {
  }

  /** `authService.getCurrentUser`, with `JSON.parse` as `parse` (None when it throws or
      yields `null`). */
  function GetCurrentUser(items: map<string, string>, parse: string -> Option<AuthUser>): (user: Option<AuthUser>)
    ensures Stored(items, UserKey).None? ==> user == None
    ensures Stored(items, UserKey).Some? ==> user == parse(items[UserKey])
  {
    match Stored(items, UserKey)
    case None => None
    case Some(text) => parse(text)
  }

  /** What `authService.logout` leaves in storage. */
  function ClearSession(items: map<string, string>): (r: map<string, string>)
    ensures TokenKey !in r && UserKey !in r
    ensures forall k :: k != TokenKey && k != UserKey ==> (k in r <==> k in items)
    ensures forall k :: k in r ==> r[k] == items[k]
  {
    items - {TokenKey, UserKey}
  }

  lemma ClearSessionIdempotent(items: map<string, string>)
    ensures ClearSession(ClearSession(items)) == ClearSession(items)
  {
  }

  /** `authService.logout`: two `removeItem` calls. */
  method Logout(storage: LocalStorage)
    modifies storage
    ensures storage.items == ClearSession(old(storage.items))
  {
    storage.RemoveItem(TokenKey);
    storage.RemoveItem(UserKey);
  }

  // ---------------------------------------------------------------- interceptors

  const AuthorizationHeader := "Authorization"
  const BearerPrefix := "Bearer "

  datatype RequestConfig = RequestConfig(headers: map<string, string>)

  /** The request interceptor: attach the stored token as a bearer credential. */
  function AttachToken(items: map<string, string>, config: RequestConfig): (r: RequestConfig)
    ensures Stored(items, TokenKey).None? ==> r == config
    ensures Stored(items, TokenKey).Some? ==>
      r.headers == config.headers[AuthorizationHeader := BearerPrefix + items[TokenKey]]
  {
    match Stored(items, TokenKey)
    case None => config
    case Some(token) => config.(headers := config.headers[AuthorizationHeader := BearerPrefix + token])
  }

  /** How a server reads an `Authorization` header (section 2.1 of RFC 6750). */
  function BearerCredential(header: string): Option<string> {
    if |header| >= |BearerPrefix| && header[..|BearerPrefix|] == BearerPrefix
    then Some(header[|BearerPrefix|..]) else None
  }

  /** The header the interceptor writes carries exactly the stored token, and a request
      without a stored token carries whatever Authorization header it already had. */
  lemma AttachTokenRoundTrip(items: map<string, string>, config: RequestConfig)
    ensures var r := AttachToken(items, config);
      Stored(items, TokenKey).Some? ==>
        AuthorizationHeader in r.headers && BearerCredential(r.headers[AuthorizationHeader]) == Some(items[TokenKey])
    ensures var r := AttachToken(items, config);
      Stored(items, TokenKey).None? ==>
        (AuthorizationHeader in r.headers <==> AuthorizationHeader in config.headers)
  {
    var r := AttachToken(items, config);
    if Stored(items, TokenKey).Some? {
      var h := BearerPrefix + items[TokenKey];
      assert r.headers[AuthorizationHeader] == h;
      assert h[..|BearerPrefix|] == BearerPrefix;
      assert h[|BearerPrefix|..] == items[TokenKey];
    }
  }

  /** An axios error as the response interceptor sees it: the HTTP status when a
      response arrived, and the `_retry` mark of the original request. */
  datatype HttpError = HttpError(status: Option<int>, retry: bool)

  predicate ForcesSignOut(e: HttpError) {
    e.status == Some(401) && !e.retry
  }

  /** What the response interceptor leaves in storage after an error. */
  function StorageAfterError(items: map<string, string>, error: HttpError): map<string, string> {
    if ForcesSignOut(error) then ClearSession(items) else items
  }

  /** Where the response interceptor sends the browser after an error. */
  function RedirectAfterError(error: HttpError): Option<string> {
    if ForcesSignOut(error) then Some("/login") else None
  }

  /** The response interceptor's error branch: on a first 401 clear the session keys
      and send the browser to "/login"; always reject with the same error. */
  method OnResponseError(storage: LocalStorage, error: HttpError) returns (rejected: HttpError, redirect: Option<string>)
    modifies storage
    ensures rejected == error
    ensures ForcesSignOut(error) ==> storage.items == ClearSession(old(storage.items)) && redirect == Some("/login")
    ensures !ForcesSignOut(error) ==> storage.items == old(storage.items) && redirect == None
    ensures storage.items == StorageAfterError(old(storage.items), error) && redirect == RedirectAfterError(error)
  {
    redirect := None;
    if error.status == Some(401) && !error.retry {
      storage.RemoveItem(TokenKey);
      storage.RemoveItem(UserKey);
      redirect := Some("/login");
    }
    rejected := error;
  }

  // ---------------------------------------------------------------- book queries

  /** The query-string keys the book listing uses. */
  datatype Key = Title | Author | Isbn | Genre | Page | Size

  /** A query-string value before percent-encoding. */
  datatype Param = Text(text: string) | Number(n: int)

  datatype Request = Request(path: string, query: seq<(Key, Param)>)

  /** The value of the first occurrence of `key`, as `URLSearchParams.get` reads it. */
  function Lookup(query: seq<(Key, Param)>, key: Key): Option<Param> {
    if query == [] then None
    else if query[0].0 == key then Some(query[0].1)
    else Lookup(query[1..], key)
  }

  lemma {:induction false} LookupAppend(a: seq<(Key, Param)>, b: seq<(Key, Param)>, key: Key)
    ensures Lookup(a + b, key) == if Lookup(a, key).Some? then Lookup(a, key) else Lookup(b, key)
  {
    if a == [] {
      assert a + b == b;
    } else {
      assert (a + b)[0] == a[0];
      assert (a + b)[1..] == a[1..] + b;
      LookupAppend(a[1..], b, key);
    }
  }

  function TextParam(key: Key, value: Option<string>): seq<(Key, Param)> {
    if Truthy(value) then [(key, Text(value.value))] else []
  }

  function NumberParam(key: Key, value: Option<int>): seq<(Key, Param)> {
    if value.Some? then [(key, Number(value.value))] else []
  }

  /** The query `searchBooks` builds: the four text filters when truthy, then page
      and size whenever they are defined (0 included). */
  function SearchQuery(p: SearchParams): seq<(Key, Param)> {
    TextParam(Title, p.title) + TextParam(Author, p.author) + TextParam(Isbn, p.isbn)
    + TextParam(Genre, p.genre) + NumberParam(Page, p.page) + NumberParam(Size, p.size)
  }

  /** The order in which `searchBooks` appends its keys. */
  function KeyRank(key: Key): int {
    match key
    case Title => 0
    case Author => 1
    case Isbn => 2
    case Genre => 3
    case Page => 4
    case Size => 5
  }

  /** The record a reader of the query string recovers: a missing key is undefined. */
  function ReadParams(query: seq<(Key, Param)>): SearchParams {
    SearchParams(
      TextValue(Lookup(query, Title)), TextValue(Lookup(query, Author)),
      TextValue(Lookup(query, Isbn)), TextValue(Lookup(query, Genre)),
      NumberValue(Lookup(query, Page)), NumberValue(Lookup(query, Size)))
  }

  function TextValue(p: Option<Param>): Option<string> {
    if p.Some? && p.value.Text? then Some(p.value.text) else None
  }

  function NumberValue(p: Option<Param>): Option<int> {
    if p.Some? && p.value.Number? then Some(p.value.n) else None
  }

  /** A falsy text filter reads back as undefined. */
  function DropFalsy(s: Option<string>): Option<string> {
    if Truthy(s) then s else None
  }

  /** The entry `searchBooks` writes for `key`, if any. */
  function SearchEntry(p: SearchParams, key: Key): Option<Param> {
    match key
    case Title => if Truthy(p.title) then Some(Text(p.title.value)) else None
    case Author => if Truthy(p.author) then Some(Text(p.author.value)) else None
    case Isbn => if Truthy(p.isbn) then Some(Text(p.isbn.value)) else None
    case Genre => if Truthy(p.genre) then Some(Text(p.genre.value)) else None
    case Page => if p.page.Some? then Some(Number(p.page.value)) else None
    case Size => if p.size.Some? then Some(Number(p.size.value)) else None
  }

  lemma LookupOne(k: Key, v: Param, key: Key)
    ensures Lookup([(k, v)], key) == if k == key then Some(v) else None
  {
    assert [(k, v)][1..] == [];
  }

  lemma LookupTextParam(k: Key, v: Option<string>, key: Key)
    ensures Lookup(TextParam(k, v), key) == if k == key && Truthy(v) then Some(Text(v.value)) else None
  {
    if Truthy(v) { LookupOne(k, Text(v.value), key); }
  }

  lemma LookupNumberParam(k: Key, v: Option<int>, key: Key)
    ensures Lookup(NumberParam(k, v), key) == if k == key && v.Some? then Some(Number(v.value)) else None
  {
    if v.Some? { LookupOne(k, Number(v.value), key); }
  }

  /** An entry written in front of the rest shadows the rest for its key. */
  lemma LookupPrefix(first: seq<(Key, Param)>, rest: seq<(Key, Param)>, key: Key)
    requires |first| <= 1
    ensures Lookup(first + rest, key) ==
      if first != [] && first[0].0 == key then Some(first[0].1) else Lookup(rest, key)
  {
    LookupAppend(first, rest, key);
    if first != [] {
      assert first == [first[0]];
      LookupOne(first[0].0, first[0].1, key);
    }
  }

  /** The query as its six parts, nested to the right. */
  lemma SearchQueryNested(p: SearchParams)
    ensures SearchQuery(p) ==
      TextParam(Title, p.title) + (TextParam(Author, p.author) + (TextParam(Isbn, p.isbn)
      + (TextParam(Genre, p.genre) + (NumberParam(Page, p.page) + NumberParam(Size, p.size)))))
  {
    var t, a, i, g := TextParam(Title, p.title), TextParam(Author, p.author), TextParam(Isbn, p.isbn), TextParam(Genre, p.genre);
    var pg, sz := NumberParam(Page, p.page), NumberParam(Size, p.size);
    AppendAssoc(t + a + i + g, pg, sz);
    AppendAssoc(t + a + i, g, pg + sz);
    AppendAssoc(t + a, i, g + (pg + sz));
    AppendAssoc(t, a, i + (g + (pg + sz)));
  }

  lemma AppendAssoc(x: seq<(Key, Param)>, y: seq<(Key, Param)>, z: seq<(Key, Param)>)
    ensures (x + y) + z == x + (y + z)
  {
  }

  lemma LookupSearchQuery(p: SearchParams, key: Key)
    ensures Lookup(SearchQuery(p), key) == SearchEntry(p, key)
  {
    var t, a, i, g := TextParam(Title, p.title), TextParam(Author, p.author), TextParam(Isbn, p.isbn), TextParam(Genre, p.genre);
    var pg, sz := NumberParam(Page, p.page), NumberParam(Size, p.size);
    SearchQueryNested(p);
    LookupPrefix(sz, [], key);
    assert sz + [] == sz;
    LookupPrefix(pg, sz, key);
    LookupPrefix(g, pg + sz, key);
    LookupPrefix(i, g + (pg + sz), key);
    LookupPrefix(a, i + (g + (pg + sz)), key);
    LookupPrefix(t, a + (i + (g + (pg + sz))), key);
  }

  /** Reading the query back gives the parameters, with empty filters dropped and
      page and size kept exactly. */
  lemma SearchQueryRoundTrip(p: SearchParams)
    ensures ReadParams(SearchQuery(p)) ==
      SearchParams(DropFalsy(p.title), DropFalsy(p.author), DropFalsy(p.isbn), DropFalsy(p.genre), p.page, p.size)
  {
    LookupSearchQuery(p, Title);
    LookupSearchQuery(p, Author);
    LookupSearchQuery(p, Isbn);
    LookupSearchQuery(p, Genre);
    LookupSearchQuery(p, Page);
    LookupSearchQuery(p, Size);
  }

  /** The keys come out in the order title, author, isbn, genre, page, size, each at most once. */
  lemma SearchQueryOrdered(p: SearchParams)
    ensures forall i, j :: 0 <= i < j < |SearchQuery(p)| ==> KeyRank(SearchQuery(p)[i].0) < KeyRank(SearchQuery(p)[j].0)
  {
  }

  /** `bookService.searchBooks`: successive `append` calls on an empty `URLSearchParams`. */
  method SearchBooks(p: SearchParams) returns (r: Request)
    ensures r == Request("/books/search", SearchQuery(p))
  {
    var query: seq<(Key, Param)> := [];
    if Truthy(p.title) { query := query + [(Title, Text(p.title.value))]; }
    assert query == TextParam(Title, p.title);
    if Truthy(p.author) { query := query + [(Author, Text(p.author.value))]; }
    assert query == TextParam(Title, p.title) + TextParam(Author, p.author);
    if Truthy(p.isbn) { query := query + [(Isbn, Text(p.isbn.value))]; }
    assert query == TextParam(Title, p.title) + TextParam(Author, p.author) + TextParam(Isbn, p.isbn);
    if Truthy(p.genre) { query := query + [(Genre, Text(p.genre.value))]; }
    ghost var texts := TextParam(Title, p.title) + TextParam(Author, p.author) + TextParam(Isbn, p.isbn) + TextParam(Genre, p.genre);
    assert query == texts;
    if p.page.Some? { query := query + [(Page, Number(p.page.value))]; }
    assert query == texts + NumberParam(Page, p.page);
    if p.size.Some? { query := query + [(Size, Number(p.size.value))]; }
    r := Request("/books/search", query);
  }

  /** A `?page=..&size=..` listing; an undefined argument takes its default, 0 or 10. */
  function Paged(path: string, page: Option<int>, size: Option<int>): (r: Request)
    ensures r.path == path
    ensures ReadParams(r.query) == SearchParams(None, None, None, None, Some(page.GetOr(0)), Some(size.GetOr(10)))
  {
    var first, second := (Page, Number(page.GetOr(0))), (Size, Number(size.GetOr(10)));
    forall key: Key
      ensures Lookup([first, second], key) == if key == Page then Some(first.1) else if key == Size then Some(second.1) else None
    {
      assert [first, second] == [first] + [second];
      LookupAppend([first], [second], key);
      LookupOne(first.0, first.1, key);
      LookupOne(second.0, second.1, key);
    }
    Request(path, [first, second])
  }

  /** `bookService.getAllBooks(page = 0, size = 10)`. */
  function GetAllBooks(page: Option<int>, size: Option<int>): (r: Request)
    ensures r.path == "/books"
    ensures ReadParams(r.query) == SearchParams(None, None, None, None, Some(page.GetOr(0)), Some(size.GetOr(10)))
  {
    Paged("/books", page, size)
  }

  /** `userService.getAllUsers(page = 0, size = 10)`. */
  function GetAllUsers(page: Option<int>, size: Option<int>): (r: Request)
    ensures r.path == "/users"
    ensures ReadParams(r.query) == SearchParams(None, None, None, None, Some(page.GetOr(0)), Some(size.GetOr(10)))
  {
    Paged("/users", page, size)
  }
}
