/**
 * The sign-in page (`Auth`): the mock login and registration rules and what
 * they write under the store's "auth" key. There is no real authentication:
 * one fixed credential pair signs in as administrator, any other non-empty
 * pair as a regular user.
 */
module Auth {
  import opened Common
  import opened Records

  const AdminEmail: string := "admin@cybercrime.gov"
  const AdminPassword: string := "admin123"

  const InvalidCredentials: string := "Please enter valid credentials"
  const MissingFields: string := "Please fill in all fields"
  const PasswordMismatch: string := "Passwords do not match"
  const PasswordTooShort: string := "Password must be at least 6 characters"

  /** The outcome of signing in with `email` and `password`: the record to store, or the error shown. */
  function LoginDecision(email: string, password: string): (r: Result<AuthRecord, string>)
    ensures r.Success? <==> email != "" && password != ""
    ensures r.Failure? ==> r.error == InvalidCredentials
    ensures r.Success? ==> r.value.isAuthenticated && r.value.email == email
    ensures r.Success? ==> (r.value.role == "admin" <==> email == AdminEmail && password == AdminPassword)
    ensures r.Success? && r.value.role == "admin" ==> r.value.name == "Admin User"
    ensures r.Success? && r.value.role != "admin" ==> r.value == AuthRecord(true, "user", email, "Regular User")
  {
    if email == AdminEmail && password == AdminPassword then
      Success(AuthRecord(true, "admin", email, "Admin User"))
    else if email != "" && password != "" then
      Success(AuthRecord(true, "user", email, "Regular User"))
    else
      Failure(InvalidCredentials)
  }

  /**
   * The outcome of registering: the first failing check decides the message
   * (missing fields, then mismatch, then length), and a success stores a
   * regular user under the entered name and email.
   */
  function RegisterDecision(name: string, email: string, password: string, confirm: string): (r: Result<AuthRecord, string>)
    ensures name == "" || email == "" || password == "" ==> r == Failure(MissingFields)
    ensures name != "" && email != "" && password != "" && password != confirm ==> r == Failure(PasswordMismatch)
    ensures name != "" && email != "" && password == confirm && 0 < |password| < 6 ==> r == Failure(PasswordTooShort)
    ensures r.Success? <==> name != "" && email != "" && password == confirm && |password| >= 6
    ensures r.Success? ==> r.value == AuthRecord(true, "user", email, name)
  {
    if name == "" || email == "" || password == "" then Failure(MissingFields)
    else if password != confirm then Failure(PasswordMismatch)
    else if |password| < 6 then Failure(PasswordTooShort)
    else Success(AuthRecord(true, "user", email, name))
  }

  class AuthPage {
    var isLoading: bool
    var error: string

    constructor ()
      ensures !isLoading && error == ""
    {
      isLoading := false;
      error := "";
    }

    /**
     * `handleLogin`, observed once its 500 ms timer has fired: the record is
     * written (and the page navigates to the dashboard) or the error is shown;
     * a failed attempt leaves the stored identity as it was.
     */
    method HandleLogin(store: BrowserStore, email: string, password: string) returns (navigated: bool)
      modifies this, store`auth
      ensures !isLoading
      ensures navigated <==> LoginDecision(email, password).Success?
      ensures LoginDecision(email, password).Success? ==>
        store.auth == Some(LoginDecision(email, password).value) && error == ""
      ensures LoginDecision(email, password).Failure? ==>
        store.auth == old(store.auth) && error == LoginDecision(email, password).error
    {
      isLoading := true;
      error := "";
      if email == AdminEmail && password == AdminPassword {
        store.auth := Some(AuthRecord(true, "admin", email, "Admin User"));
        isLoading := false;
        navigated := true;
      } else if email != "" && password != "" {
        store.auth := Some(AuthRecord(true, "user", email, "Regular User"));
        isLoading := false;
        navigated := true;
      } else {
        isLoading := false;
        error := InvalidCredentials;
        navigated := false;
      }
    }

    /**
     * `handleRegister`: each failed check sets its message, clears the
     * loading flag and returns before anything is stored.
     */
    method HandleRegister(store: BrowserStore, name: string, email: string, password: string, confirm: string)
      returns (navigated: bool)
      modifies this, store`auth
      ensures !isLoading
      ensures navigated <==> RegisterDecision(name, email, password, confirm).Success?
      ensures RegisterDecision(name, email, password, confirm).Success? ==>
        store.auth == Some(RegisterDecision(name, email, password, confirm).value) && error == ""
      ensures RegisterDecision(name, email, password, confirm).Failure? ==>
        store.auth == old(store.auth) && error == RegisterDecision(name, email, password, confirm).error
    {
      isLoading := true;
      error := "";
      if name == "" || email == "" || password == "" {
        error := MissingFields;
        isLoading := false;
        return false;
      }
      if password != confirm {
        error := PasswordMismatch;
        isLoading := false;
        return false;
      }
      if |password| < 6 {
        error := PasswordTooShort;
        isLoading := false;
        return false;
      }
      store.auth := Some(AuthRecord(true, "user", email, name));
      isLoading := false;
      navigated := true;
    }
  }
}
