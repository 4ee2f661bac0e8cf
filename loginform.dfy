/** The login form: e-mail and password checks, then the session and token writes on a successful login. */
module LoginForm {
  import opened Wrappers
  import opened Text
  import opened Validation
  import opened Domain
  import opened Storage
  import opened Forms
  import opened AuthUtil
  import opened UseAuth
  import opened UseNotification

  datatype LoginFields = LoginFields(email: string, password: string)

  /** The body of the login call, and what a successful call answers. */
  datatype LoginRequest = LoginRequest(email: string, password: string)
  datatype LoginResponse = LoginResponse(user: User, token: string)

  const PasswordMessage := "Password is required"
  const SuccessMessage := "Login successful!"

  /** The error object `validateForm` computes: the e-mail rule, then a bare presence check on the password. */
  function LoginErrors(d: LoginFields): Errors {
    Put(Put(map[], "email", EmailError(d.email)), "password", Required(d.password, PasswordMessage))
  }

  /** A blank value is never a valid address: the pattern needs an '@', which is not whitespace. */
  lemma BlankIsNotEmail(email: string)
    requires AllWhitespace(email)
    ensures !IsValidEmail(email)
  {
  }

  /**
   * The e-mail has an error exactly when it is not a valid address; the
   * password only when blank — its strength is not checked at login.
   */
  lemma LoginErrorsIff(d: LoginFields)
    ensures "email" in LoginErrors(d) <==> !IsValidEmail(d.email)
    ensures "password" in LoginErrors(d) <==> AllWhitespace(d.password)
    ensures LoginErrors(d).Keys <= {"email", "password"}
    ensures LoginErrors(d) == map[] <==> IsValidEmail(d.email) && !AllWhitespace(d.password)
  {
    if AllWhitespace(d.email) {
      BlankIsNotEmail(d.email);
    }
    var e := LoginErrors(d);
    if e != map[] {
      var k :| k in e;
    }
  }

  /** A one-letter password passes the login checks. */
  lemma WeakPasswordAccepted(email: string)
    requires IsValidEmail(email)
    ensures LoginErrors(LoginFields(email, "x")) == map[]
  {
    LoginErrorsIff(LoginFields(email, "x"));
    assert !IsWhitespace("x"[0]);
  }

  datatype LoginEdit = EmailInput(text: string) | PasswordInput(text: string)

  function EditName(e: LoginEdit): string {
    if e.EmailInput? then "email" else "password"
  }

  class LoginPanel {
    var formData: LoginFields
    var errors: Errors
    const session: AuthSession
    const notifier: Notifier

    /** Both fields start empty, with no errors. */
    constructor (session: AuthSession, notifier: Notifier)
      ensures this.session == session && this.notifier == notifier
      ensures formData == LoginFields("", "") && errors == map[]
    {
      this.session := session;
      this.notifier := notifier;
      formData := LoginFields("", "");
      errors := map[];
    }

    method ValidateForm() returns (valid: bool)
      modifies this
      ensures formData == old(formData)
      ensures errors == LoginErrors(formData)
      ensures valid <==> errors == map[]
    {
      var newErrors: Errors := map[];
      if IsEmptyString(formData.email) {
        newErrors := newErrors["email" := "Email is required"];
      } else if !IsValidEmail(formData.email) {
        newErrors := newErrors["email" := "Invalid email format"];
      }
      if IsEmptyString(formData.password) {
        newErrors := newErrors["password" := PasswordMessage];
      }
      errors := newErrors;
      valid := newErrors == map[];
    }

    method HandleChange(e: LoginEdit)
      modifies this
      ensures formData == if e.EmailInput? then old(formData).(email := e.text) else old(formData).(password := e.text)
      ensures errors == AfterEdit(old(errors), EditName(e))
    {
      match e {
        case EmailInput(s) => formData := formData.(email := s);
        case PasswordInput(s) => formData := formData.(password := s);
      }
      var name := EditName(e);
      if name in errors {
        errors := errors - {name};
      }
    }

    /**
     * `handleSubmit`, given the server's answer to the login call. Invalid
     * input sends nothing and changes nothing else. A successful login makes
     * the answered user the session user and stores the answered token as it
     * is (an empty token too, since the store is written directly); a failed
     * one leaves the session and the store alone. A store that throws lands
     * in the same catch after the user was already set, so the session is
     * signed in while nothing was stored and the error is shown. Either way a
     * notification says how it went.
     */
    method HandleSubmit(answer: Result<LoginResponse>) returns (sent: Option<LoginRequest>)
      modifies this, session, session.store, notifier
      ensures formData == old(formData) && errors == LoginErrors(formData)
      ensures sent.None? <==> errors != map[]
      ensures sent.Some? ==> sent.value == LoginRequest(formData.email, formData.password)
      ensures sent.None? || answer.Err? ==>
        session.user == old(session.user) && session.store.entries == old(session.store.entries)
      ensures sent.None? ==> notifier.notification == old(notifier.notification)
      ensures sent.Some? && answer.Ok? ==> session.user == Some(answer.value.user) && session.IsAuthenticated()
      ensures sent.Some? && answer.Ok? && session.store.fault.None? ==>
        && session.store.entries == UserSaved(old(session.store.entries), session.codec, Some(answer.value.user))[TokenKey := answer.value.token]
        && notifier.notification == Shown(SuccessMessage, Some(Success))
      ensures sent.Some? && answer.Ok? && session.store.fault.Some? ==>
        && session.store.entries == old(session.store.entries)
        && notifier.notification == Shown(session.store.fault.value, Some(Error))
      ensures sent.Some? && answer.Err? ==> notifier.notification == Shown(answer.message, Some(Error))
    {
      var valid := ValidateForm();
      if !valid {
        return None;
      }
      sent := Some(LoginRequest(formData.email, formData.password));
      match answer {
        case Ok(response) =>
          session.Login(response.user);
          var thrown := session.store.SetItem(TokenKey, response.token);
          if thrown.Some? {
            notifier.ShowNotification(thrown.value, Some(Error));
          } else {
            notifier.ShowNotification(SuccessMessage, Some(Success));
          }
        case Err(message) =>
          notifier.ShowNotification(message, Some(Error));
      }
    }
  }

  /** After a successful login the stored token reads back as the answered one, even when that token is empty. */
  lemma LoginTokenReadsBack(entries: map<string, string>, codec: UserCodec, response: LoginResponse)
    ensures var after := UserSaved(entries, codec, Some(response.user))[TokenKey := response.token];
      Lookup(after, TokenKey) == Some(response.token)
      && (RoundTrips(codec) ==> StoredUser(after, codec) == Some(response.user))
  {
    KeysDiffer();
  }
}
