// The sign-up form of src/components/auth/RegisterForm.tsx: the rule of each
// field, what `onSubmit` does once the store's `register` settles, and the
// error banner.

module RegisterForm {
  import opened Types
  import opened Effects
  import opened Validation
  import AuthStore
  import Api

  /** The form's record; a field never typed into is modelled as "". */
  datatype RegisterFormData = RegisterFormData(
    username: string, email: string, password: string, confirmPassword: string,
    name: string, surname: string)

  /** The registered fields, in the order the form registers them. */
  datatype Field = Name | Surname | Username | Email | Password | ConfirmPassword

  /** The confirmation: `required`, then equal to the password as it stands. */
  function ConfirmError(value: string, password: string): (r: Option<string>)
    ensures r.None? <==> Present(value) && value == password
    ensures r == Some("Passwords do not match") <==> Present(value) && value != password
  {
    if !Present(value) then Some("Please confirm your password")
    else if value != password then Some("Passwords do not match")
    else None
  }

  /** The message of the first rule of the field that the record breaks. */
  function FieldError(d: RegisterFormData, f: Field): Option<string> {
    match f
    case Name => RequiredError(d.name, "First name is required")
    case Surname => RequiredError(d.surname, "Last name is required")
    case Username => RequiredError(d.username, "Username is required")
    case Email => EmailError(d.email)
    case Password => PasswordError(d.password)
    case ConfirmPassword => ConfirmError(d.confirmPassword, d.password)
  }

  function Checks(d: RegisterFormData): seq<(Field, Option<string>)> {
    [ (Name, FieldError(d, Name)), (Surname, FieldError(d, Surname)),
      (Username, FieldError(d, Username)), (Email, FieldError(d, Email)),
      (Password, FieldError(d, Password)), (ConfirmPassword, FieldError(d, ConfirmPassword)) ]
  }

  function Errors(d: RegisterFormData): seq<(Field, string)> {
    Collect(Checks(d))
  }

  /** `handleSubmit(onSubmit)`: the record reaches `onSubmit` only without errors. */
  function Submit(d: RegisterFormData): Option<RegisterFormData> {
    if Errors(d) == [] then Some(d) else None
  }

  /** No error is collected exactly when every field passes its rules. */
  lemma ErrorsEmptyWhenAllPass(d: RegisterFormData)
    ensures Errors(d) == [] <==>
      && FieldError(d, Name).None? && FieldError(d, Surname).None? && FieldError(d, Username).None?
      && FieldError(d, Email).None? && FieldError(d, Password).None? && FieldError(d, ConfirmPassword).None?
  {
    var checks := Checks(d);
    assert (forall i :: 0 <= i < |checks| ==> checks[i].1.None?) <==>
      checks[0].1.None? && checks[1].1.None? && checks[2].1.None? &&
      checks[3].1.None? && checks[4].1.None? && checks[5].1.None?;
  }

  /** A sign-up is submitted exactly when the names and the username are filled,
      the e-mail address has the accepted shape, the password has at least 8
      characters and the confirmation repeats it. */
  lemma SubmitAccepts(d: RegisterFormData)
    ensures Submit(d).Some? <==>
      && Present(d.name) && Present(d.surname) && Present(d.username)
      && EmailShape(d.email) && LongEnough(d.password) && d.confirmPassword == d.password
    ensures Submit(d).Some? ==> Submit(d).value == d
  {
    ErrorsEmptyWhenAllPass(d);
  }

  const SuccessMessage := "Account created successfully, please login to continue"

  /** The tail of `onSubmit`: a toast and the way to the login page, but only
      when `registerUser` resolved with a truthy value. */
  function AfterResolve(success: bool): (effects: seq<Effect>)
    ensures Navigate("/login") in effects <==> success
    ensures Toast(SuccessToast, SuccessMessage) in effects <==> success
    ensures Calls(effects) == []
  {
    var effects := if success then [Toast(SuccessToast, SuccessMessage), Navigate("/login")] else [];
    assert success ==> effects[1..][1..] == [];
    effects
  }

  /** The store's `register` has no return value: whatever the backend answers,
      the form sees `undefined`. */
  const StoreRegisterResolvesTruthy := false

  /** `onSubmit` as wired: the store's register runs, then the form acts on what
      it resolved with. */
  function OnSubmit(s: AuthStore.Session, outcome: AuthStore.Outcome<AuthStore.AuthResponse>): (AuthStore.Session, seq<Effect>) {
    (AuthStore.AfterRegister(s, outcome), AfterResolve(StoreRegisterResolvesTruthy))
  }

  /** The form never acknowledges a registration: even one the backend accepts
      only marks the session authenticated, with no user, and neither the toast
      nor the form's move to the login page ever happens. The visitor leaves the
      form only when a first 401 makes the interceptor send the browser to "/login". */
  lemma SuccessIsNeverAcknowledged(s: AuthStore.Session, outcome: AuthStore.Outcome<AuthStore.AuthResponse>)
    ensures Navigate("/login") !in OnSubmit(s, outcome).1
    ensures Toast(SuccessToast, SuccessMessage) !in OnSubmit(s, outcome).1
    ensures outcome.Resolved? ==> OnSubmit(s, outcome).0.state == AuthStore.State(s.state.user, true, false, None)
    ensures AuthStore.Redirect(outcome).Some? <==> outcome.Rejected? && Api.ForcesSignOut(outcome.http)
  {
    if outcome.Resolved? {
      AuthStore.RegisterSucceeds(s, outcome.value);
    }
  }

  /** `{registerError && ...}`: the banner and its text. */
  function ErrorBanner(registerError: Option<string>): (r: Option<string>)
    ensures r.Some? <==> Truthy(registerError)
    ensures r.Some? ==> r.value == registerError.value
  {
    if Truthy(registerError) then Some(registerError.value) else None
  }

  /** The store has no `registerError`: the form reads `undefined`. */
  const StoreRegisterError: Option<string> := None

  /** A failed registration records its message in the store's `error`, but the
      banner reads `registerError`, which the store does not have, and stays hidden. */
  lemma FailureIsNeverShown(s: AuthStore.Session, thrown: AuthStore.Thrown, http: Api.HttpError)
    ensures AuthStore.AfterRegister(s, AuthStore.Rejected(thrown, http)).state.error.Some?
    ensures ErrorBanner(StoreRegisterError).None?
  {
  }
}
