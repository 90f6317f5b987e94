/** The login screen: a password field, an error flag and a loading flag, set
    in two steps — the submit, and the delayed result of the password check
    that the submit schedules. */
module LoginScreen {
  import Kernel

  class LoginForm {
    var password: string
    var error: bool
    var loading: bool
    /** The passwords captured by the checks scheduled and not yet run, oldest
        first: each delayed check reads the password as it was at its submit. */
    var pending: seq<string>

    constructor ()
      ensures password == "" && !error && !loading && pending == []
    {
      password := "";
      error := false;
      loading := false;
      pending := [];
    }

    /** The field's change handler. */
    method Type(text: string)
      modifies this`password
      ensures password == text
    {
      password := text;
    }

    /** The submit button is enabled when nothing is loading and a password
        has been typed. */
    function SubmitEnabled(): (enabled: bool)
      reads this
      ensures enabled ==> password != ""
      ensures loading ==> !enabled
    {
      !loading && password != ""
    }

    /** The form's submit: an empty password does nothing; otherwise the form
        shows it is loading, clears the error and schedules the check. */
    method Submit()
      modifies this`loading, this`error, this`pending
      ensures old(password) == "" ==> loading == old(loading) && error == old(error) && pending == old(pending)
      ensures old(password) != "" ==> loading && !error && pending == old(pending) + [password]
    {
      if password == "" {
        return;
      }
      loading := true;
      error := false;
      pending := pending + [password];
    }

    /** The oldest scheduled check runs: on success the login callback is
        called and the form is left as it is; on failure the error shows, the
        loading ends and the field is emptied. */
    method Resolve() returns (loginCalled: bool)
      requires pending != []
      modifies this
      ensures pending == old(pending)[1..]
      ensures loginCalled <==> Kernel.Authenticate(old(pending)[0])
      ensures loginCalled ==> password == old(password) && error == old(error) && loading == old(loading)
      ensures !loginCalled ==> error && !loading && password == ""
    {
      var attempt := pending[0];
      pending := pending[1..];
      loginCalled := Kernel.Authenticate(attempt);
      if !loginCalled {
        error := true;
        loading := false;
        password := "";
      }
    }
  }

  /** One submit followed by its result, from an enabled form: the login
      callback runs exactly for an accepted password, and a refused one
      leaves the form with the error showing and submit disabled until a new
      password is typed. */
  method SubmitThenResolve(form: LoginForm) returns (loginCalled: bool)
    requires form.SubmitEnabled() && form.pending == []
    modifies form
    ensures loginCalled <==> old(form.password) in Kernel.AcceptedPasswords
    ensures loginCalled ==> form.loading && !form.error
    ensures !loginCalled ==> form.error && !form.SubmitEnabled()
    ensures form.pending == []
  {
    form.Submit();
    loginCalled := form.Resolve();
  }
}
