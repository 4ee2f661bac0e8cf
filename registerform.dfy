/**
 * The registration form: profile and password checks, a case-insensitive
 * duplicate-address check against the known users, the register call, and
 * the session written after it.
 */
module RegisterForm {
  import opened Wrappers
  import opened Text
  import opened Validation
  import opened Domain
  import opened Storage
  import opened Forms
  import opened AuthUtil
  import opened UseAuth
  import opened UseNotification

  datatype RegisterFields = RegisterFields(
    name: string,
    nickName: string,
    email: string,
    password: string,
    confirmPassword: string,
    isAdmin: bool)

  const InitialFields := RegisterFields("", "", "", "", "", false)

  const MismatchMessage := "Passwords do not match"
  const DuplicateMessage := "User with this email already exists"
  const SuccessMessage := "Registration successful! Welcome!"
  /** The placeholder token stored after registering. */
  const RegisteredToken := "registered_user_token"

  function MismatchError(d: RegisterFields): Option<string> {
    if d.password != d.confirmPassword then Some(MismatchMessage) else None
  }

  /** The error object `validateForm` computes, one rule per field in form order. */
  function RegisterErrors(d: RegisterFields): Errors {
    var e3 := ProfileErrors(d.name, d.nickName, d.email);
    var e4 := Put(e3, "password", StrengthError(d.password));
    Put(e4, "confirmPassword", MismatchError(d))
  }

  /**
   * Each field's error is present exactly when its rule fails. The password
   * error lists every broken strength rule joined with "; ", and the
   * confirmation is compared whether or not the password is strong.
   */
  lemma RegisterErrorsIff(d: RegisterFields)
    ensures var e := RegisterErrors(d);
      && ("name" in e <==> AllWhitespace(d.name))
      && ("nickName" in e <==> AllWhitespace(d.nickName))
      && ("email" in e <==> !IsValidEmail(d.email))
      && ("password" in e <==> !(|d.password| >= 8 && HasUpper(d.password) && HasLower(d.password) && HasDigit(d.password)))
      && ("password" in e ==> e["password"] == Join(ViolationMessages(d.password), "; "))
      && ("confirmPassword" in e <==> d.password != d.confirmPassword)
      && e.Keys <= {"name", "nickName", "email", "password", "confirmPassword"}
  {
    var e3 := ProfileErrors(d.name, d.nickName, d.email);
    var e4 := Put(e3, "password", StrengthError(d.password));
    var e := Put(e4, "confirmPassword", MismatchError(d));
    ProfileErrorsIff(d.name, d.nickName, d.email);
    PasswordErrors(d, e3, e4, e);
  }

  /** The two password rules, added after the profile rules without touching them. */
  lemma PasswordErrors(d: RegisterFields, e3: Errors, e4: Errors, e: Errors)
    requires e3.Keys <= {"name", "nickName", "email"}
    requires e4 == Put(e3, "password", StrengthError(d.password))
    requires e == Put(e4, "confirmPassword", MismatchError(d))
    ensures forall k :: k != "password" && k != "confirmPassword" ==> (k in e <==> k in e3)
    ensures "password" in e <==> !(|d.password| >= 8 && HasUpper(d.password) && HasLower(d.password) && HasDigit(d.password))
    ensures "password" in e ==> e["password"] == Join(ViolationMessages(d.password), "; ")
    ensures "confirmPassword" in e <==> d.password != d.confirmPassword
    ensures e.Keys <= e3.Keys + {"password", "confirmPassword"}
  {
    assert |"password"| != |"confirmPassword"|;
    PutTwo(e3, "password", StrengthError(d.password), "confirmPassword", MismatchError(d));
  }

  lemma RegisterValidIff(d: RegisterFields)
    ensures RegisterErrors(d) == map[] <==>
      !AllWhitespace(d.name) && !AllWhitespace(d.nickName) && IsValidEmail(d.email)
      && |d.password| >= 8 && HasUpper(d.password) && HasLower(d.password) && HasDigit(d.password)
      && d.password == d.confirmPassword
  {
    RegisterErrorsIff(d);
    var e := RegisterErrors(d);
    if e != map[] {
      var k :| k in e;
    }
  }

  /** `Array.prototype.find` with the case-insensitive address comparison: the first user whose address matches. */
  function FindByEmail(users: seq<User>, email: string): (r: Option<User>)
    ensures r.Some? <==> exists i :: 0 <= i < |users| && ToLower(users[i].email) == ToLower(email)
    ensures r.Some? ==> exists i :: 0 <= i < |users| && users[i] == r.value
                          && ToLower(users[i].email) == ToLower(email)
                          && forall j :: 0 <= j < i ==> ToLower(users[j].email) != ToLower(email)
  {
    if users == [] then None
    else if ToLower(users[0].email) == ToLower(email) then Some(users[0])
    else
      var rest := FindByEmail(users[1..], email);
      FindShift(users, email, rest);
      rest
  }

  lemma FindShift(users: seq<User>, email: string, rest: Option<User>)
    requires users != [] && ToLower(users[0].email) != ToLower(email)
    requires rest.Some? <==> exists i :: 0 <= i < |users[1..]| && ToLower(users[1..][i].email) == ToLower(email)
    requires rest.Some? ==> exists i :: 0 <= i < |users[1..]| && users[1..][i] == rest.value
                              && ToLower(users[1..][i].email) == ToLower(email)
                              && forall j :: 0 <= j < i ==> ToLower(users[1..][j].email) != ToLower(email)
    ensures rest.Some? <==> exists i :: 0 <= i < |users| && ToLower(users[i].email) == ToLower(email)
    ensures rest.Some? ==> exists i :: 0 <= i < |users| && users[i] == rest.value
                             && ToLower(users[i].email) == ToLower(email)
                             && forall j :: 0 <= j < i ==> ToLower(users[j].email) != ToLower(email)
  {
    var tail := users[1..];
    if exists i :: 0 <= i < |users| && ToLower(users[i].email) == ToLower(email) {
      var i :| 0 <= i < |users| && ToLower(users[i].email) == ToLower(email);
      assert users[i] == tail[i - 1];
    }
    if rest.Some? {
      var i :| 0 <= i < |tail| && tail[i] == rest.value
               && ToLower(tail[i].email) == ToLower(email)
               && forall j :: 0 <= j < i ==> ToLower(tail[j].email) != ToLower(email);
      assert users[i + 1] == tail[i];
      forall j | 0 <= j < i + 1 ensures ToLower(users[j].email) != ToLower(email) {
        if j > 0 { assert users[j] == tail[j - 1]; }
      }
    }
  }

  /** An address differing only in ASCII letter case is still a duplicate. */
  lemma CaseInsensitiveDuplicate(users: seq<User>, u: User, email: string)
    requires u in users && ToLower(u.email) == ToLower(email)
    ensures FindByEmail(users, email).Some?
  {
    var i :| 0 <= i < |users| && users[i] == u;
  }

  /** The register payload: the form without its confirmation field. */
  function RegisterData(d: RegisterFields): UserRequest {
    UserRequest(d.isAdmin, d.name, d.nickName, d.email, d.password)
  }

  /** The confirmation never reaches the server: forms that differ only there send the same payload. */
  lemma ConfirmationStripped(d: RegisterFields, confirmation: string)
    ensures RegisterData(d.(confirmPassword := confirmation)) == RegisterData(d)
    ensures RegisterData(d).password == d.password && RegisterData(d).email == d.email
  {
  }

  /** An error message from the register call that signals an existing account. */
  predicate MentionsConflict(message: string) {
    Contains(message, "already exists") || Contains(message, "duplicate") || Contains(message, "conflict")
  }

  /** The message the catch block receives: the register call's error, or that of a store throwing after it. */
  function Thrown(answer: Result<User>, fault: Option<string>): Option<string> {
    match answer
    case Err(message) => Some(message)
    case Ok(_) => fault
  }

  datatype RegisterEdit = TextInput(field: string, text: string) | AdminCheckbox(checked: bool)

  /** The fields after an event: a known text input sets its own field, the checkbox sets `isAdmin`, and nothing else changes. */
  function EditedFields(d: RegisterFields, e: RegisterEdit): (r: RegisterFields)
    ensures r.name == if e.TextInput? && e.field == "name" then e.text else d.name
    ensures r.nickName == if e.TextInput? && e.field == "nickName" then e.text else d.nickName
    ensures r.email == if e.TextInput? && e.field == "email" then e.text else d.email
    ensures r.password == if e.TextInput? && e.field == "password" then e.text else d.password
    ensures r.confirmPassword == if e.TextInput? && e.field == "confirmPassword" then e.text else d.confirmPassword
    ensures r.isAdmin == if e.AdminCheckbox? then e.checked else d.isAdmin
  {
    match e
    case AdminCheckbox(checked) => d.(isAdmin := checked)
    case TextInput(field, s) =>
      if field == "name" then d.(name := s)
      else if field == "nickName" then d.(nickName := s)
      else if field == "email" then d.(email := s)
      else if field == "password" then d.(password := s)
      else if field == "confirmPassword" then d.(confirmPassword := s)
      else d
  }

  class RegisterPanel {
    var formData: RegisterFields
    var errors: Errors
    const session: AuthSession
    const notifier: Notifier

    constructor (session: AuthSession, notifier: Notifier)
      ensures this.session == session && this.notifier == notifier
      ensures formData == InitialFields && errors == map[]
    {
      this.session := session;
      this.notifier := notifier;
      formData := InitialFields;
      errors := map[];
    }

    method ValidateForm() returns (valid: bool)
      modifies this
      ensures formData == old(formData)
      ensures errors == RegisterErrors(formData)
      ensures valid <==> errors == map[]
    {
      var newErrors: Errors := map[];
      if IsEmptyString(formData.name) {
        newErrors := newErrors["name" := NameMessage];
      }
      if IsEmptyString(formData.nickName) {
        newErrors := newErrors["nickName" := NickNameMessage];
      }
      if IsEmptyString(formData.email) {
        newErrors := newErrors["email" := "Email is required"];
      } else if !IsValidEmail(formData.email) {
        newErrors := newErrors["email" := "Invalid email format"];
      }
      assert newErrors == ProfileErrors(formData.name, formData.nickName, formData.email);
      var check := ValidatePassword(formData.password);
      if !check.valid {
        newErrors := newErrors["password" := Join(check.errors, "; ")];
      }
      if formData.password != formData.confirmPassword {
        newErrors := newErrors["confirmPassword" := MismatchMessage];
      }
      errors := newErrors;
      valid := newErrors == map[];
    }

    /** `handleChange`: a text input sets its field, the checkbox sets `isAdmin`; the field's error is cleared. */
    method HandleChange(e: RegisterEdit)
      modifies this
      ensures formData == EditedFields(old(formData), e)
      ensures errors == AfterEdit(old(errors), if e.TextInput? then e.field else "isAdmin")
    {
      var name := if e.TextInput? then e.field else "isAdmin";
      match e {
        case AdminCheckbox(checked) => formData := formData.(isAdmin := checked);
        case TextInput(field, s) =>
          if field == "name" { formData := formData.(name := s); }
          else if field == "nickName" { formData := formData.(nickName := s); }
          else if field == "email" { formData := formData.(email := s); }
          else if field == "password" { formData := formData.(password := s); }
          else if field == "confirmPassword" { formData := formData.(confirmPassword := s); }
      }
      if name in errors {
        errors := errors - {name};
      }
    }

    /**
     * `handleSubmit`, given the answers of the user listing and of the register
     * call. A failed listing counts as no users. An address already taken
     * (compared case-insensitively) stops before registering; a successful
     * registration logs the new user in with the placeholder token; a failed
     * one reports an existing account on the e-mail field when its message says so.
     */
    method HandleSubmit(listing: Result<seq<User>>, answer: Result<User>) returns (sent: Option<UserRequest>)
      modifies this, session, session.store, notifier
      ensures formData == old(formData)
      ensures sent.Some? ==> sent.value == RegisterData(formData)
      ensures RegisterErrors(formData) != map[] ==>
        sent.None? && errors == RegisterErrors(formData) && notifier.notification == old(notifier.notification)
      ensures (var known := if listing.Ok? then listing.value else [];
               RegisterErrors(formData) == map[] && FindByEmail(known, formData.email).Some? ==>
                 sent.None? && errors == map["email" := DuplicateMessage]
                 && notifier.notification == Shown(DuplicateMessage, Some(Error)))
      ensures sent.Some? <==> RegisterErrors(formData) == map[]
                              && FindByEmail(if listing.Ok? then listing.value else [], formData.email).None?
      ensures sent.None? || answer.Err? ==>
        session.user == old(session.user) && session.store.entries == old(session.store.entries)
      ensures sent.Some? && answer.Ok? ==> session.user == Some(answer.value)
      ensures sent.Some? && answer.Ok? && session.store.fault.None? ==>
        && errors == map[]
        && session.store.entries == UserSaved(old(session.store.entries), session.codec, Some(answer.value))[TokenKey := RegisteredToken]
        && notifier.notification == Shown(SuccessMessage, Some(Success))
      ensures sent.Some? && answer.Ok? && session.store.fault.Some? ==> session.store.entries == old(session.store.entries)
      ensures (var thrown := Thrown(answer, session.store.fault);
               sent.Some? && thrown.Some? && MentionsConflict(thrown.value) ==>
                 errors == map["email" := DuplicateMessage] && notifier.notification == Shown(DuplicateMessage, Some(Error)))
      ensures (var thrown := Thrown(answer, session.store.fault);
               sent.Some? && thrown.Some? && !MentionsConflict(thrown.value) ==>
                 errors == map[] && notifier.notification == Shown(thrown.value, Some(Error)))
    {
      var valid := ValidateForm();
      if !valid {
        return None;
      }
      var known := if listing.Ok? then listing.value else [];
      var existing := FindByEmail(known, formData.email);
      if existing.Some? {
        RejectDuplicate();
        return None;
      }
      sent := Some(RegisterData(formData));
      CompleteRegistration(answer);
    }

    /** An existing account: the e-mail field alone carries the error, and a notification says so. */
    method RejectDuplicate()
      modifies this, notifier
      ensures formData == old(formData)
      ensures errors == map["email" := DuplicateMessage]
      ensures notifier.notification == Shown(DuplicateMessage, Some(Error))
    {
      errors := map["email" := DuplicateMessage];
      notifier.ShowNotification(DuplicateMessage, Some(Error));
    }

    /**
     * What follows the register call, given its answer. A store that throws
     * after the user was set lands in the same catch as a failed call.
     */
    method CompleteRegistration(answer: Result<User>)
      modifies this, session, session.store, notifier
      ensures formData == old(formData)
      ensures answer.Err? ==> session.user == old(session.user) && session.store.entries == old(session.store.entries)
      ensures answer.Ok? ==> session.user == Some(answer.value)
      ensures answer.Ok? && session.store.fault.None? ==>
        && errors == old(errors)
        && session.store.entries == UserSaved(old(session.store.entries), session.codec, Some(answer.value))[TokenKey := RegisteredToken]
        && notifier.notification == Shown(SuccessMessage, Some(Success))
      ensures answer.Ok? && session.store.fault.Some? ==> session.store.entries == old(session.store.entries)
      ensures (var thrown := Thrown(answer, session.store.fault);
               thrown.Some? && MentionsConflict(thrown.value) ==>
                 errors == map["email" := DuplicateMessage] && notifier.notification == Shown(DuplicateMessage, Some(Error)))
      ensures (var thrown := Thrown(answer, session.store.fault);
               thrown.Some? && !MentionsConflict(thrown.value) ==>
                 errors == old(errors) && notifier.notification == Shown(thrown.value, Some(Error)))
    {
      match answer {
        case Ok(newUser) =>
          session.Login(newUser);
          var thrown := session.store.SetItem(TokenKey, RegisteredToken);
          if thrown.Some? {
            ReportFailure(thrown.value);
          } else {
            notifier.ShowNotification(SuccessMessage, Some(Success));
          }
        case Err(message) =>
          ReportFailure(message);
      }
    }

    /** The catch block: a message that signals an existing account is reported on the e-mail field. */
    method ReportFailure(message: string)
      modifies this, notifier
      ensures formData == old(formData)
      ensures MentionsConflict(message) ==>
        errors == map["email" := DuplicateMessage] && notifier.notification == Shown(DuplicateMessage, Some(Error))
      ensures !MentionsConflict(message) ==>
        errors == old(errors) && notifier.notification == Shown(message, Some(Error))
    {
      if MentionsConflict(message) {
        RejectDuplicate();
      } else {
        notifier.ShowNotification(message, Some(Error));
      }
    }
  }
}
