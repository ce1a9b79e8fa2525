// What the handlers of the client do to the outside world, recorded as values:
// router navigation, toasts, mutations sent to the backend, and query refetches.

module Effects {
  import opened Types

  datatype ToastKind = InfoToast | SuccessToast | ErrorToast

  /** A mutating request to the backend. */
  datatype ApiCall =
    | BorrowBook(bookId: string)
    | ReturnBook(borrowingId: string)
    | CreateBook(book: BookFormData)
    | UpdateBook(id: string, book: BookFormData)
    | DeleteBook(id: string)
    | CreateUser(user: UserFormData)
    | UpdateUser(id: string, user: UserFormData)
    | DeactivateUser(id: string)
    | DeleteUser(id: string)

  datatype Effect =
    | Navigate(path: string)
    | Toast(kind: ToastKind, message: string)
    | Call(call: ApiCall)
    | Refetch(queryKey: string)

  /** The calls among a list of effects. */
  function Calls(effects: seq<Effect>): (calls: seq<ApiCall>)
    ensures |calls| <= |effects|
    ensures forall c :: c in calls <==> Call(c) in effects
  {
    if effects == [] then []
    else (if effects[0].Call? then [effects[0].call] else []) + Calls(effects[1..])
  }
}

// The one behavioural rule of src/components/ui/Button.tsx.
module Button {
  /** A button is disabled when asked to be, and also while it shows its spinner. */
  predicate Disabled(disabled: bool, isLoading: bool) {
    disabled || isLoading
  }
}
