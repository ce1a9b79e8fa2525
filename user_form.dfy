// The librarian's user form of src/components/admin/UserForm.tsx: its default
// record, the role and status options, and the rules that depend on whether an
// existing user is edited.

module UserForm {
  import opened Types
  import opened Validation
  import Text
  import RegisterForm

  /** The record the form starts from when no user is given. */
  const Defaults := UserFormData("", "", "", "", "", Patron, Active)

  /** `initialData || {...}`. */
  function DefaultValues(initialData: Option<UserFormData>): UserFormData {
    initialData.GetOr(Defaults)
  }

  /** The wire values of the two enumerations. */
  function RoleValue(r: Role): string {
    match r
    case Patron => "PATRON"
    case Librarian => "LIBRARIAN"
  }

  function StatusValue(s: Status): string {
    match s
    case Active => "ACTIVE"
    case Inactive => "INACTIVE"
  }

  /** The role a wire value names. */
  function RoleOf(v: string): (r: Option<Role>)
    ensures r.Some? ==> RoleValue(r.value) == v
  {
    if v == "PATRON" then Some(Patron)
    else if v == "LIBRARIAN" then Some(Librarian)
    else None
  }

  function StatusOf(v: string): (r: Option<Status>)
    ensures r.Some? ==> StatusValue(r.value) == v
  {
    if v == "ACTIVE" then Some(Active)
    else if v == "INACTIVE" then Some(Inactive)
    else None
  }

  const RoleOptions := [SelectOption("PATRON", "Patron"), SelectOption("LIBRARIAN", "Librarian")]
  const StatusOptions := [SelectOption("ACTIVE", "Active"), SelectOption("INACTIVE", "Inactive")]

  /** Each role has exactly one option, whose value is its wire value and whose
      label is that value capitalised; every option's value names a role; a new
      user starts as a patron. */
  lemma RoleOptionsMatchRoles()
    ensures DefaultValues(None).role == Patron
    ensures forall r: Role :: RoleOf(RoleValue(r)) == Some(r)
    ensures forall r: Role :: SelectOption(RoleValue(r), Text.Capitalize(RoleValue(r))) in RoleOptions
    ensures |RoleOptions| == 2 && RoleOptions[0].value != RoleOptions[1].value
    ensures forall o :: o in RoleOptions ==> RoleOf(o.value).Some?
  {
    RoleCaptions();
  }

  /** The same for the statuses; a new user starts active. */
  lemma StatusOptionsMatchStatuses()
    ensures DefaultValues(None).status == Active
    ensures forall s: Status :: StatusOf(StatusValue(s)) == Some(s)
    ensures forall s: Status :: SelectOption(StatusValue(s), Text.Capitalize(StatusValue(s))) in StatusOptions
    ensures |StatusOptions| == 2 && StatusOptions[0].value != StatusOptions[1].value
    ensures forall o :: o in StatusOptions ==> StatusOf(o.value).Some?
  {
    StatusCaptions();
  }

  lemma RoleCaptions()
    ensures Text.Capitalize("PATRON") == "Patron"
    ensures Text.Capitalize("LIBRARIAN") == "Librarian"
  {
    CapitalizedAs("PATRON", "Patron");
    CapitalizedAs("LIBRARIAN", "Librarian");
  }

  lemma StatusCaptions()
    ensures Text.Capitalize("ACTIVE") == "Active"
    ensures Text.Capitalize("INACTIVE") == "Inactive"
  {
    CapitalizedAs("ACTIVE", "Active");
    CapitalizedAs("INACTIVE", "Inactive");
  }

  lemma CapitalizedAs(s: string, t: string)
    requires |s| == |t| && |s| > 0 && t[0] == Text.ToUpper(s[0])
    requires forall i :: 0 < i < |s| ==> t[i] == Text.ToLower(s[i])
    ensures Text.Capitalize(s) == t
  {
  }

  /** The record `handleSubmit` validates, given what was typed into the inputs.
      Both selects spread `register(...)` after their `onChange`, so
      react-hook-form's handler replaces `handleRoleChange` and
      `handleStatusChange`, and `Select` calls that handler with the chosen value
      rather than an event: nothing is stored, and role and status stay the
      default ones. */
  function Submitted(initialData: Option<UserFormData>, typed: UserFormData): UserFormData {
    typed.(role := DefaultValues(initialData).role, status := DefaultValues(initialData).status)
  }

  /** Choosing a role or status changes nothing that is submitted: a new user is
      always an active patron, an edited user keeps role and status, and whether
      the form submits depends only on what was typed. */
  lemma SelectsKeepDefaults(initialData: Option<UserFormData>, typed: UserFormData, isEditing: bool)
    ensures var r := Submit(Submitted(initialData, typed), isEditing);
      r.Some? ==> r.value.role == DefaultValues(initialData).role && r.value.status == DefaultValues(initialData).status
    ensures var r := Submit(Submitted(None, typed), isEditing);
      r.Some? ==> r.value.role == Patron && r.value.status == Active
    ensures Submit(Submitted(initialData, typed), isEditing).Some? <==> Submit(typed, isEditing).Some?
  {
    SubmitAccepts(typed, isEditing);
    SubmitAccepts(Submitted(initialData, typed), isEditing);
    SubmitAccepts(Submitted(None, typed), isEditing);
  }

  /** The fields, in the order the form registers them. */
  datatype Field = Username | Email | Password | Name | Surname

  /** The fields the form registers: the password input exists only for a new user. */
  function Registered(isEditing: bool): (r: seq<Field>)
    ensures Password in r <==> !isEditing
    ensures Username in r && Email in r && Name in r && Surname in r
  {
    if isEditing then [Username, Email, Name, Surname]
    else [Username, Email, Password, Name, Surname]
  }

  /** The message of the first rule of a registered field that the record breaks. */
  function FieldError(d: UserFormData, f: Field): Option<string> {
    match f
    case Username => RequiredError(d.username, "Username is required")
    case Email => EmailError(d.email)
    case Password => PasswordError(d.password)
    case Name => RequiredError(d.name, "First name is required")
    case Surname => RequiredError(d.surname, "Last name is required")
  }

  /** Each registered field with the outcome of its rules. */
  function Checks(d: UserFormData, isEditing: bool): seq<(Field, Option<string>)> {
    if isEditing then
      [(Username, FieldError(d, Username)), (Email, FieldError(d, Email)),
       (Name, FieldError(d, Name)), (Surname, FieldError(d, Surname))]
    else
      [(Username, FieldError(d, Username)), (Email, FieldError(d, Email)), (Password, FieldError(d, Password)),
       (Name, FieldError(d, Name)), (Surname, FieldError(d, Surname))]
  }

  function Errors(d: UserFormData, isEditing: bool): seq<(Field, string)> {
    Collect(Checks(d, isEditing))
  }

  function Submit(d: UserFormData, isEditing: bool): Option<UserFormData> {
    if Errors(d, isEditing) == [] then Some(d) else None
  }

  /** No error is collected exactly when every registered field passes its rules. */
  lemma ErrorsEmptyWhenAllPass(d: UserFormData, isEditing: bool)
    ensures Errors(d, isEditing) == [] <==>
      && FieldError(d, Username).None? && FieldError(d, Email).None?
      && (!isEditing ==> FieldError(d, Password).None?)
      && FieldError(d, Name).None? && FieldError(d, Surname).None?
  {
    var checks := Checks(d, isEditing);
    var ok := forall i :: 0 <= i < |checks| ==> checks[i].1.None?;
    if isEditing {
      assert ok <==> checks[0].1.None? && checks[1].1.None? && checks[2].1.None? && checks[3].1.None?;
    } else {
      assert ok <==> checks[0].1.None? && checks[1].1.None? && checks[2].1.None? && checks[3].1.None? && checks[4].1.None?;
    }
  }

  /** A record is submitted exactly when the username and the names are filled,
      the e-mail address has the accepted shape and, for a new user only, the
      password has at least 8 characters. */
  lemma SubmitAccepts(d: UserFormData, isEditing: bool)
    ensures Submit(d, isEditing).Some? <==>
      && Present(d.username) && Present(d.name) && Present(d.surname) && EmailShape(d.email)
      && (!isEditing ==> LongEnough(d.password))
    ensures Submit(d, isEditing).Some? ==> Submit(d, isEditing).value == d
  {
    ErrorsEmptyWhenAllPass(d, isEditing);
  }

  /** An edit never looks at the password: any value passes. */
  lemma EditIgnoresPassword(d: UserFormData, password: string)
    ensures Submit(d.(password := password), true).Some? <==> Submit(d, true).Some?
  {
    SubmitAccepts(d, true);
    SubmitAccepts(d.(password := password), true);
  }

  /** The address rule is the one of the sign-up form, message for message. */
  lemma SameEmailRuleAsSignUp(d: UserFormData, r: RegisterForm.RegisterFormData)
    requires d.email == r.email
    ensures FieldError(d, Email) == RegisterForm.FieldError(r, RegisterForm.Email)
  {
  }

  /** The parts of the form that depend on editing. */
  datatype FormView = FormView(usernameDisabled: bool, showsPassword: bool, submitLabel: string)

  function View(isEditing: bool): (v: FormView)
    ensures v.usernameDisabled <==> isEditing
    ensures v.showsPassword <==> Password in Registered(isEditing)
    ensures v.submitLabel == "Update User" <==> isEditing
    ensures v.submitLabel == "Add User" <==> !isEditing
  {
    FormView(isEditing, !isEditing, if isEditing then "Update User" else "Add User")
  }
}
