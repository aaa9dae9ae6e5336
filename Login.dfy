/**
 * The sign-in form: login() disables both inputs, checks the username and
 * then the password, and either flags the first invalid field and enables
 * the inputs again, or hides the form and sends one sign-in request.
 */
module SignIn {
  /** The minimum password length the form accepts. */
  const MinPasswordLength := 8

  /** The outcome of the two checks, the username checked first. */
  datatype Verdict = InvalidUsername | InvalidPassword | Accepted

  /** The basic credentials a sign-in request carries. */
  datatype Credentials = Credentials(username: string, password: string)

  /**
   * The checks of login(): a blank username is refused first; then a blank
   * password or one shorter than eight characters. isBlank stands for the
   * string helper, which is not part of this model.
   */
  function Validate(username: string, password: string, isBlank: string -> bool): (v: Verdict)
    ensures v == InvalidUsername <==> isBlank(username)
    ensures v == InvalidPassword <==>
              !isBlank(username) && (isBlank(password) || |password| < MinPasswordLength)
    ensures v == Accepted <==>
              !isBlank(username) && !isBlank(password) && |password| >= MinPasswordLength
  {
    if isBlank(username) then InvalidUsername
    else if isBlank(password) || |password| < MinPasswordLength then InvalidPassword
    else Accepted
  }

  /** When both fields are invalid only the username is reported. */
  lemma UsernameCheckedFirst(username: string, password: string, isBlank: string -> bool)
    requires isBlank(username) && (isBlank(password) || |password| < MinPasswordLength)
    ensures Validate(username, password, isBlank) == InvalidUsername
  {
  }

  /** Eight characters is long enough and seven is not. */
  lemma LengthBoundary(username: string, password: string, isBlank: string -> bool)
    requires !isBlank(username) && !isBlank(password)
    ensures |password| == 8 ==> Validate(username, password, isBlank) == Accepted
    ensures |password| == 7 ==> Validate(username, password, isBlank) == InvalidPassword
  {
  }

  class LoginForm {
    /** Whether the username and password inputs take input. */
    var usernameEnabled: bool
    var passwordEnabled: bool
    /** Whether each input shows its error. */
    var usernameError: bool
    var passwordError: bool
    /** Whether the form is shown, and whether the progress indicator is. */
    var formVisible: bool
    var loading: bool
    /** The sign-in requests sent, in order. */
    var requests: seq<Credentials>

    /** The form as created: inputs enabled, no errors, nothing sent. */
    constructor ()
      ensures usernameEnabled && passwordEnabled
      ensures !usernameError && !passwordError
      ensures formVisible && !loading
      ensures requests == []
    {
      usernameEnabled := true;
      passwordEnabled := true;
      usernameError := false;
      passwordError := false;
      formVisible := true;
      loading := false;
      requests := [];
    }

    method EnableInput()
      modifies this`usernameEnabled, this`passwordEnabled
      ensures usernameEnabled && passwordEnabled
    {
      usernameEnabled := true;
      passwordEnabled := true;
    }

    method DisableInput()
      modifies this`usernameEnabled, this`passwordEnabled
      ensures !usernameEnabled && !passwordEnabled
    {
      usernameEnabled := false;
      passwordEnabled := false;
    }

    /**
     * login(): a refused field gets its error, the inputs are enabled again
     * and nothing is sent; accepted input leaves the inputs disabled, hides
     * the form, shows progress and sends exactly one request.
     */
    method Login(username: string, password: string, isBlank: string -> bool)
      modifies this
      ensures var v := Validate(username, password, isBlank);
              (v == Accepted <==> requests == old(requests) + [Credentials(username, password)]) &&
              (v != Accepted <==> requests == old(requests))
      ensures Validate(username, password, isBlank) == InvalidUsername ==>
                usernameError && passwordError == old(passwordError) &&
                usernameEnabled && passwordEnabled &&
                formVisible == old(formVisible) && loading == old(loading)
      ensures Validate(username, password, isBlank) == InvalidPassword ==>
                passwordError && usernameError == old(usernameError) &&
                usernameEnabled && passwordEnabled &&
                formVisible == old(formVisible) && loading == old(loading)
      ensures Validate(username, password, isBlank) == Accepted ==>
                !usernameEnabled && !passwordEnabled && !formVisible && loading &&
                usernameError == old(usernameError) && passwordError == old(passwordError)
    {
      DisableInput();
      if isBlank(username) {
        usernameError := true;
        EnableInput();
        return;
      }
      if isBlank(password) || |password| < MinPasswordLength {
        passwordError := true;
        EnableInput();
        return;
      }
      formVisible := false;
      loading := true;
      requests := requests + [Credentials(username, password)];
    }
  }
}
