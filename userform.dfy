/** The user editor of the profile and administration pages: profile checks, a required password, and a three-way dispatch. */
module UserForm {
  import opened Wrappers
  import opened Text
  import opened Validation
  import opened Domain
  import opened Forms

  /** The password always starts empty, even when editing; a missing `isAdmin` is false. */
  function InitialFields(user: Option<User>): (d: UserRequest)
    ensures d.password == ""
    ensures user.None? ==> d == UserRequest(false, "", "", "", "")
    ensures user.Some? ==> d == UserRequest(user.value.isAdmin, user.value.name, user.value.nickName, user.value.email, "")
  {
    if user.Some? then UserRequest(user.value.isAdmin, user.value.name, user.value.nickName, user.value.email, "")
    else UserRequest(false, "", "", "", "")
  }

  const PasswordMessage := "Password is required"

  /** The password rule: blank is "required"; otherwise every broken strength rule, joined with "; ". */
  function PasswordError(password: string): Option<string> {
    if IsEmptyString(password) then Some(PasswordMessage)
    else if password != "" then StrengthError(password)
    else None
  }

  /** The error object `validateForm` computes. */
  function UserErrors(d: UserRequest): Errors {
    Put(ProfileErrors(d.name, d.nickName, d.email), "password", PasswordError(d.password))
  }

  /**
   * The profile fields follow the registration rules. The password is
   * required even when editing, and "required" is reported instead of the
   * strength messages when it is blank.
   */
  lemma UserErrorsIff(d: UserRequest)
    ensures var e := UserErrors(d);
      && ("name" in e <==> AllWhitespace(d.name))
      && ("nickName" in e <==> AllWhitespace(d.nickName))
      && ("email" in e <==> !IsValidEmail(d.email))
      && ("password" in e <==> !(|d.password| >= 8 && HasUpper(d.password) && HasLower(d.password) && HasDigit(d.password)))
      && ("password" in e ==> e["password"] == if AllWhitespace(d.password) then PasswordMessage
                                               else Join(ViolationMessages(d.password), "; "))
      && e.Keys <= {"name", "nickName", "email", "password"}
  {
    var e3 := ProfileErrors(d.name, d.nickName, d.email);
    ProfileErrorsIff(d.name, d.nickName, d.email);
    PasswordErrorIff(d.password);
    assert |"password"| != |"name"| && |"password"| != |"email"|;
  }

  /** A blank password is "required"; any other fails exactly when it breaks a strength rule. */
  lemma PasswordErrorIff(password: string)
    ensures PasswordError(password).Some? <==> !(|password| >= 8 && HasUpper(password) && HasLower(password) && HasDigit(password))
    ensures PasswordError(password).Some? ==>
      PasswordError(password).value == (if AllWhitespace(password) then PasswordMessage else Join(ViolationMessages(password), "; "))
  {
    IsEmptyStringIffWhitespace(password);
    if AllWhitespace(password) {
      assert !HasUpper(password);
    } else {
      assert password != "";
    }
  }

  /** Saving a profile with the password left empty is always refused. */
  lemma EmptyPasswordRefused(d: UserRequest)
    requires d.password == ""
    ensures UserErrors(d) != map[] && UserErrors(d)["password"] == PasswordMessage
  {
    UserErrorsIff(d);
  }

  /** The three calls the form can make. */
  datatype UserCall = UpdateUser(id: string, request: UserRequest) | CreateUser(request: UserRequest) | Register(request: UserRequest)

  /** The dispatch: an update of the given user, else a create from the admin panel, else a public registration. */
  function CallFor(user: Option<User>, isAdminContext: bool, d: UserRequest): (c: UserCall)
    ensures c.request == d
    ensures c.UpdateUser? <==> user.Some?
    ensures c.UpdateUser? ==> c.id == user.value.id
    ensures c.CreateUser? <==> user.None? && isAdminContext
  {
    if user.Some? then UpdateUser(user.value.id, d)
    else if isAdminContext then CreateUser(d)
    else Register(d)
  }

  datatype UserEdit = TextInput(field: string, text: string) | AdminCheckbox(checked: bool)

  /** The fields after an event: a known text input sets its own field, the checkbox sets `isAdmin`, and nothing else changes. */
  function EditedFields(d: UserRequest, e: UserEdit): (r: UserRequest)
    ensures r.name == if e.TextInput? && e.field == "name" then e.text else d.name
    ensures r.nickName == if e.TextInput? && e.field == "nickName" then e.text else d.nickName
    ensures r.email == if e.TextInput? && e.field == "email" then e.text else d.email
    ensures r.password == if e.TextInput? && e.field == "password" then e.text else d.password
    ensures r.isAdmin == if e.AdminCheckbox? then e.checked else d.isAdmin
  {
    match e
    case AdminCheckbox(checked) => d.(isAdmin := checked)
    case TextInput(field, s) =>
      if field == "name" then d.(name := s)
      else if field == "nickName" then d.(nickName := s)
      else if field == "email" then d.(email := s)
      else if field == "password" then d.(password := s)
      else d
  }

  class UserEditor {
    var formData: UserRequest
    var errors: Errors
    const user: Option<User>
    const isAdminContext: bool

    constructor (user: Option<User>, isAdminContext: bool)
      ensures this.user == user && this.isAdminContext == isAdminContext
      ensures formData == InitialFields(user) && errors == map[]
    {
      this.user := user;
      this.isAdminContext := isAdminContext;
      formData := InitialFields(user);
      errors := map[];
    }

    method ValidateForm() returns (valid: bool)
      modifies this
      ensures formData == old(formData)
      ensures errors == UserErrors(formData)
      ensures valid <==> errors == map[]
    {
      var newErrors: Errors := map[];
      if IsEmptyString(formData.name) {
        newErrors := newErrors["name" := NameMessage];
      }
      if IsEmptyString(formData.nickName) {
        newErrors := newErrors["nickName" := NickNameMessage];
      }
      if IsEmptyString(formData.email) {
        newErrors := newErrors["email" := "Email is required"];
      } else if !IsValidEmail(formData.email) {
        newErrors := newErrors["email" := "Invalid email format"];
      }
      assert newErrors == ProfileErrors(formData.name, formData.nickName, formData.email);
      if IsEmptyString(formData.password) {
        newErrors := newErrors["password" := PasswordMessage];
      } else if formData.password != "" {
        var check := ValidatePassword(formData.password);
        if !check.valid {
          newErrors := newErrors["password" := Join(check.errors, "; ")];
        }
      }
      errors := newErrors;
      valid := newErrors == map[];
    }

    method HandleChange(e: UserEdit)
      modifies this
      ensures formData == EditedFields(old(formData), e)
      ensures errors == AfterEdit(old(errors), if e.TextInput? then e.field else "isAdmin")
    {
      var name := if e.TextInput? then e.field else "isAdmin";
      match e {
        case AdminCheckbox(checked) => formData := formData.(isAdmin := checked);
        case TextInput(field, s) =>
          if field == "name" { formData := formData.(name := s); }
          else if field == "nickName" { formData := formData.(nickName := s); }
          else if field == "email" { formData := formData.(email := s); }
          else if field == "password" { formData := formData.(password := s); }
      }
      if name in errors {
        errors := errors - {name};
      }
    }

    /** `handleSubmit`: blocked when invalid; otherwise the one call chosen by `CallFor`, with the form's five fields. */
    method HandleSubmit() returns (call: Option<UserCall>)
      modifies this
      ensures formData == old(formData)
      ensures errors == UserErrors(formData)
      ensures call.None? <==> errors != map[]
      ensures call.Some? ==> call.value == CallFor(user, isAdminContext, formData)
    {
      var valid := ValidateForm();
      if !valid {
        return None;
      }
      var request := UserRequest(formData.isAdmin, formData.name, formData.nickName, formData.email, formData.password);
      if user.Some? {
        call := Some(UpdateUser(user.value.id, request));
      } else if isAdminContext {
        call := Some(CreateUser(request));
      } else {
        call := Some(Register(request));
      }
    }
  }
}
