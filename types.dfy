// Shared entities of the client, after src/types/index.ts.

module Types {

  datatype Option<+T> = None | Some(value: T) {
    function GetOr(default: T): T {
      match this
      case Some(v) => v
      case None => default
    }
  }

  /** `User["role"]`: the closed set of roles the backend hands out. */
  datatype Role = Librarian | Patron

  /** `User["status"]`. */
  datatype Status = Active | Inactive

  /** The identity the session store keeps and persists under the "user" key. */
  datatype AuthUser = AuthUser(username: string, role: Role)

  datatype User = User(
    id: string, username: string, email: string,
    name: string, surname: string, role: Role, status: Status)

  datatype Book = Book(
    id: string, name: string, isbn: string, author: string, publisher: string,
    numberOfPages: int, quantity: int, availableQuantity: int, genre: string)

  /** A loan. Dates are instants in milliseconds since the epoch; the return date
      keeps its raw text because only its JavaScript truthiness is ever tested. */
  datatype Borrowing = Borrowing(
    id: string, userId: string, bookId: string,
    borrowDate: int, dueDate: int, returnDate: Option<string>)

  /** JavaScript truthiness of an optional string: absent and "" are both false. */
  predicate Truthy(s: Option<string>) {
    s.Some? && s.value != ""
  }

  /** `SearchBooksParams`: every field may be left undefined. */
  datatype SearchParams = SearchParams(
    title: Option<string>, author: Option<string>, isbn: Option<string>,
    genre: Option<string>, page: Option<int>, size: Option<int>)

  /** The empty record `{}`. */
  const NoParams := SearchParams(None, None, None, None, None, None)

  datatype BookFormData = BookFormData(
    name: string, isbn: string, author: string, publisher: string,
    numberOfPages: int, quantity: int, genre: string)

  datatype UserFormData = UserFormData(
    username: string, email: string, password: string,
    name: string, surname: string, role: Role, status: Status)

  /** The `variant` prop of a Badge. */
  datatype Variant = Success | Error | Primary

  /** A rendered Badge: its text and its variant. */
  datatype Badge = Badge(text: string, variant: Variant)

  /** An entry of a Select's `options`. */
  datatype SelectOption = SelectOption(value: string, caption: string)
}
