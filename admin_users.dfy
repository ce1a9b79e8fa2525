// The librarian's user page of src/pages/admin/Users.tsx: the page, search,
// form-open and selection state its handlers update, the create-or-update
// dispatch of the form, and the confirmed delete and deactivate actions.

module AdminUsers {
  import opened Types
  import opened Effects
  import Api
  import UserForm

  const PageSize := 10

  /** The page's state. `selectedUser` is the user being edited; the form is open
      whenever one is. */
  class Manager {
    var page: int
    var search: string
    var isFormOpen: bool
    var selectedUser: Option<User>

    predicate Valid()
      reads this
    {
      selectedUser.Some? ==> isFormOpen
    }

    /** The list query's key: page and search text. */
    function QueryKey(): (string, int, string)
      reads this
    {
      ("adminUsers", page, search)
    }

    /** The list query's request: the page alone, ten users to a page. */
    function ListRequest(): (r: Api.Request)
      reads this
      ensures r.path == "/users"
      ensures Api.ReadParams(r.query) == SearchParams(None, None, None, None, Some(page), Some(PageSize))
    {
      Api.GetAllUsers(Some(page), Some(PageSize))
    }

    /** `isEditing={!!selectedUser}`. */
    predicate IsEditing()
      reads this
    {
      selectedUser.Some?
    }

    constructor ()
      ensures page == 0 && search == "" && !isFormOpen && selectedUser.None?
      ensures Valid()
    {
      page, search, isFormOpen, selectedUser := 0, "", false, None;
    }

    /** Typing in the search box: the key changes, the request does not. */
    method SetSearch(value: string)
      modifies this
      ensures search == value
      ensures page == old(page) && isFormOpen == old(isFormOpen) && selectedUser == old(selectedUser)
      ensures ListRequest() == old(ListRequest())
      ensures old(search) != value ==> QueryKey() != old(QueryKey())
      ensures Valid() == old(Valid())
    {
      search := value;
    }

    /** The pagination's `onPageChange`. */
    method SetPage(p: int)
      modifies this
      ensures page == p
      ensures search == old(search) && isFormOpen == old(isFormOpen) && selectedUser == old(selectedUser)
      ensures Valid() == old(Valid())
    {
      page := p;
    }

    /** `handleEdit`: the user is selected and the form opened in editing mode. */
    method HandleEdit(user: User)
      modifies this
      ensures selectedUser == Some(user) && isFormOpen && IsEditing()
      ensures page == old(page) && search == old(search)
      ensures Valid()
    {
      selectedUser := Some(user);
      isFormOpen := true;
    }

    /** "Add New User": the selection is cleared and the form opened for a new user. */
    method OpenCreate()
      modifies this
      ensures selectedUser.None? && isFormOpen && !IsEditing()
      ensures page == old(page) && search == old(search)
      ensures Valid()
    {
      selectedUser := None;
      isFormOpen := true;
    }

    /** The form's `onCancel`: the form closed and the selection cleared. */
    method Cancel()
      modifies this
      ensures selectedUser.None? && !isFormOpen
      ensures page == old(page) && search == old(search)
      ensures Valid()
    {
      isFormOpen := false;
      selectedUser := None;
    }

    /** `handleFormSubmit`: one call, an update of the selected user or a
        creation; `succeeded` is whether the awaited call resolved. A success
        closes the form, clears the selection and refetches; a failure only
        shows a toast. */
    method HandleFormSubmit(data: UserFormData, succeeded: bool) returns (call: ApiCall, effects: seq<Effect>)
      requires Valid()
      modifies this
      ensures call == (if old(selectedUser).Some? then UpdateUser(old(selectedUser).value.id, data) else CreateUser(data))
      ensures succeeded ==> !isFormOpen && selectedUser.None?
      ensures succeeded ==> effects == [Toast(SuccessToast, SubmitMessage(old(selectedUser))), Refetch("adminUsers")]
      ensures !succeeded ==> isFormOpen == old(isFormOpen) && selectedUser == old(selectedUser)
      ensures !succeeded ==> effects == [Toast(ErrorToast, "Operation failed")]
      ensures page == old(page) && search == old(search)
      ensures Valid()
    {
      if selectedUser.Some? {
        call := UpdateUser(selectedUser.value.id, data);
      } else {
        call := CreateUser(data);
      }
      if succeeded {
        effects := [Toast(SuccessToast, SubmitMessage(selectedUser)), Refetch("adminUsers")];
        isFormOpen := false;
        selectedUser := None;
      } else {
        effects := [Toast(ErrorToast, "Operation failed")];
      }
    }
  }

  /** The success toast of a submit. */
  function SubmitMessage(selected: Option<User>): string {
    if selected.Some? then "User updated successfully" else "User created successfully"
  }

  /** The heading over the form. */
  function FormTitle(selected: Option<User>): string {
    if selected.Some? then "Edit User" else "Add New User"
  }

  /** `initialData={selectedUser}`: a user record carries no password. */
  function FormInitialData(selected: Option<User>): Option<UserFormData> {
    match selected
    case Some(u) => Some(UserFormData(u.username, u.email, "", u.name, u.surname, u.role, u.status))
    case None => None
  }

  /** The heading, the toast and the form's mode agree on create versus update:
      an edit starts from the user's own fields, locks the username, hides the
      password and so never asks for one; a creation starts blank as a patron. */
  lemma CreateOrUpdateAgree(selected: Option<User>)
    ensures FormTitle(selected) == "Edit User" <==> selected.Some?
    ensures SubmitMessage(selected) == "User updated successfully" <==> selected.Some?
    ensures var v := UserForm.View(selected.Some?);
      && (v.submitLabel == "Update User" <==> selected.Some?)
      && (v.usernameDisabled <==> selected.Some?)
      && (v.showsPassword <==> selected.None?)
    ensures selected.Some? ==> UserForm.DefaultValues(FormInitialData(selected)).username == selected.value.username
    ensures selected.None? ==> UserForm.DefaultValues(FormInitialData(selected)) == UserForm.Defaults
  {
  }

  /** `handleDelete`: the delete mutation, once the librarian confirms. */
  function HandleDelete(id: string, confirmed: bool): (r: Option<ApiCall>)
    ensures r.Some? <==> confirmed
    ensures r.Some? ==> r.value == DeleteUser(id)
  {
    if confirmed then Some(DeleteUser(id)) else None
  }

  /** `handleDeactivate`: the deactivate mutation, once the librarian confirms. */
  function HandleDeactivate(id: string, confirmed: bool): (r: Option<ApiCall>)
    ensures r.Some? <==> confirmed
    ensures r.Some? ==> r.value == DeactivateUser(id)
  {
    if confirmed then Some(DeactivateUser(id)) else None
  }

  /** The row: the status badge's variant, the role badge and whether Deactivate
      is offered. */
  datatype Row = Row(statusBadge: Badge, roleBadge: Badge, offersDeactivate: bool)

  function RowOf(u: User): Row {
    Row(Badge(UserForm.StatusValue(u.status), if u.status == Active then Success else Error),
        Badge(UserForm.RoleValue(u.role), Primary),
        u.status == Active)
  }

  /** Deactivate is offered exactly on the rows whose status badge is green, and
      a click on it reaches the backend only after confirmation, for that user. */
  lemma DeactivateOnlyActiveUsers(u: User, confirmed: bool)
    ensures RowOf(u).offersDeactivate <==> u.status == Active
    ensures RowOf(u).offersDeactivate <==> RowOf(u).statusBadge.variant == Success
    ensures RowOf(u).statusBadge.text == "ACTIVE" <==> RowOf(u).offersDeactivate
    ensures RowOf(u).offersDeactivate ==> (HandleDeactivate(u.id, confirmed) == Some(DeactivateUser(u.id)) <==> confirmed)
  {
  }

  /** The callbacks of the two row mutations: a toast each way, a refetch on success. */
  function OnRowMutationSettled(deactivate: bool, succeeded: bool): (effects: seq<Effect>)
    ensures Refetch("adminUsers") in effects <==> succeeded
    ensures Calls(effects) == []
  {
    var effects :=
      if succeeded then
        [Toast(SuccessToast, if deactivate then "User deactivated successfully" else "User deleted successfully"), Refetch("adminUsers")]
      else [Toast(ErrorToast, if deactivate then "Failed to deactivate user" else "Failed to delete user")];
    assert effects[1..] == if succeeded then [Refetch("adminUsers")] else [];
    assert succeeded ==> effects[1..][1..] == [];
    effects
  }
}
