/** The author editor: two names and a birth date, checked before an author is created or updated. */
module AuthorForm {
  import opened Wrappers
  import opened Text
  import opened Validation
  import opened Domain
  import opened Forms

  datatype AuthorFields = AuthorFields(firstName: string, lastName: string, birthDate: string)

  /** `CreateUpdateAuthorRequest`: the names as typed and the birth date in ISO 8601 form. */
  datatype AuthorRequest = AuthorRequest(firstName: string, lastName: string, birthDate: string)

  datatype AuthorCall = CreateAuthor(request: AuthorRequest) | UpdateAuthor(id: string, request: AuthorRequest)

  /** `new Date(s).toISOString()`, which the model takes as given; none for a date that does not parse. */
  type DateParser = string -> Option<string>

  function InitialFields(author: Option<Author>): (d: AuthorFields)
    ensures author.None? ==> d == AuthorFields("", "", "")
    ensures author.Some? ==> d == AuthorFields(author.value.firstName, author.value.lastName, author.value.birthDate)
  {
    if author.Some? then AuthorFields(author.value.firstName, author.value.lastName, author.value.birthDate)
    else AuthorFields("", "", "")
  }

  const FirstNameRequired := "First name is required"
  const FirstNameShort := "First name must be at least 2 characters"
  const LastNameRequired := "Last name is required"
  const LastNameShort := "Last name must be at least 2 characters"

  /** A name rule: blank is "required"; otherwise fewer than two characters (untrimmed) is "too short". */
  function NameError(value: string, required: string, short: string): Option<string> {
    if IsEmptyString(value) then Some(required)
    else if |value| < 2 then Some(short)
    else None
  }

  function DateError(value: string, iso: DateParser): Option<string> {
    if IsEmptyString(value) then Some("Birth date is required")
    else if iso(value).None? then Some("Invalid date")
    else None
  }

  /** The error object `validateForm` computes, one else-if chain per field. */
  function AuthorErrors(d: AuthorFields, iso: DateParser): Errors {
    var e1 := Put(map[], "firstName", NameError(d.firstName, FirstNameRequired, FirstNameShort));
    var e2 := Put(e1, "lastName", NameError(d.lastName, LastNameRequired, LastNameShort));
    Put(e2, "birthDate", DateError(d.birthDate, iso))
  }

  /** A name has an error exactly when blank or shorter than two characters: "required" when blank, "too short" otherwise. */
  lemma NameErrorIff(value: string, required: string, short: string)
    requires required != short
    ensures NameError(value, required, short).Some? <==> AllWhitespace(value) || |value| < 2
    ensures NameError(value, required, short) == Some(required) <==> AllWhitespace(value)
    ensures NameError(value, required, short) == Some(short) <==> !AllWhitespace(value) && |value| < 2
  {
    IsEmptyStringIffWhitespace(value);
  }

  /**
   * Each field has at most one error: "required" exactly when blank, and the
   * second message exactly when not blank but too short (names) or unparsable (date).
   */
  lemma AuthorErrorsIff(d: AuthorFields, iso: DateParser)
    ensures var e := AuthorErrors(d, iso);
      && ("firstName" in e <==> AllWhitespace(d.firstName) || |d.firstName| < 2)
      && ("firstName" in e ==> e["firstName"] == if AllWhitespace(d.firstName) then FirstNameRequired else FirstNameShort)
      && ("lastName" in e <==> AllWhitespace(d.lastName) || |d.lastName| < 2)
      && ("lastName" in e ==> e["lastName"] == if AllWhitespace(d.lastName) then LastNameRequired else LastNameShort)
      && ("birthDate" in e <==> AllWhitespace(d.birthDate) || iso(d.birthDate).None?)
      && ("birthDate" in e ==> e["birthDate"] == if AllWhitespace(d.birthDate) then "Birth date is required" else "Invalid date")
      && e.Keys <= {"firstName", "lastName", "birthDate"}
  {
    assert |FirstNameRequired| != |FirstNameShort| && |LastNameRequired| != |LastNameShort|;
    NameErrorIff(d.firstName, FirstNameRequired, FirstNameShort);
    NameErrorIff(d.lastName, LastNameRequired, LastNameShort);
    IsEmptyStringIffWhitespace(d.birthDate);
    assert |"Birth date is required"| != |"Invalid date"|;
  }

  /** The length check counts the untrimmed value: a space and one letter passes it. */
  lemma UntrimmedLength(iso: DateParser)
    ensures "firstName" !in AuthorErrors(AuthorFields(" J", "Doe", "1970-01-01"), iso)
  {
    IsEmptyStringIffWhitespace(" J");
    assert !IsWhitespace(" J"[1]);
  }

  /** The form is valid exactly when both names have two or more characters, not all blank, and the date parses. */
  lemma AuthorValidIff(d: AuthorFields, iso: DateParser)
    ensures AuthorErrors(d, iso) == map[] <==>
      !AllWhitespace(d.firstName) && |d.firstName| >= 2 && !AllWhitespace(d.lastName) && |d.lastName| >= 2
      && !AllWhitespace(d.birthDate) && iso(d.birthDate).Some?
  {
    AuthorErrorsIff(d, iso);
    var e := AuthorErrors(d, iso);
    if e != map[] {
      var k :| k in e;
    }
  }

  /** The submitted request: the names copied and the date converted (none when conversion would throw). */
  function SubmitData(d: AuthorFields, iso: DateParser): (r: Option<AuthorRequest>)
    ensures r.Some? <==> iso(d.birthDate).Some?
    ensures r.Some? ==> r.value.firstName == d.firstName && r.value.lastName == d.lastName
    ensures r.Some? ==> r.value.birthDate == iso(d.birthDate).value
  {
    match iso(d.birthDate)
    case None => None
    case Some(date) => Some(AuthorRequest(d.firstName, d.lastName, date))
  }

  /** A valid form always converts: submission never reaches the throwing conversion. */
  lemma ValidFormConverts(d: AuthorFields, iso: DateParser)
    requires AuthorErrors(d, iso) == map[]
    ensures SubmitData(d, iso).Some?
  {
    AuthorValidIff(d, iso);
  }

  datatype AuthorEdit = FirstNameInput(text: string) | LastNameInput(text: string) | BirthDateInput(text: string)

  function EditName(e: AuthorEdit): string {
    match e
    case FirstNameInput(_) => "firstName"
    case LastNameInput(_) => "lastName"
    case BirthDateInput(_) => "birthDate"
  }

  function EditedFields(d: AuthorFields, e: AuthorEdit): (r: AuthorFields)
    ensures r.firstName == if e.FirstNameInput? then e.text else d.firstName
    ensures r.lastName == if e.LastNameInput? then e.text else d.lastName
    ensures r.birthDate == if e.BirthDateInput? then e.text else d.birthDate
  {
    match e
    case FirstNameInput(s) => d.(firstName := s)
    case LastNameInput(s) => d.(lastName := s)
    case BirthDateInput(s) => d.(birthDate := s)
  }

  class AuthorEditor {
    var formData: AuthorFields
    var errors: Errors
    const author: Option<Author>

    constructor (author: Option<Author>)
      ensures this.author == author
      ensures formData == InitialFields(author) && errors == map[]
    {
      this.author := author;
      formData := InitialFields(author);
      errors := map[];
    }

    method ValidateForm(iso: DateParser) returns (valid: bool)
      modifies this
      ensures formData == old(formData)
      ensures errors == AuthorErrors(formData, iso)
      ensures valid <==> errors == map[]
    {
      var newErrors: Errors := map[];
      if IsEmptyString(formData.firstName) {
        newErrors := newErrors["firstName" := FirstNameRequired];
      } else if |formData.firstName| < 2 {
        newErrors := newErrors["firstName" := FirstNameShort];
      }
      assert newErrors == Put(map[], "firstName", NameError(formData.firstName, FirstNameRequired, FirstNameShort));
      ghost var e1 := newErrors;
      if IsEmptyString(formData.lastName) {
        newErrors := newErrors["lastName" := LastNameRequired];
      } else if |formData.lastName| < 2 {
        newErrors := newErrors["lastName" := LastNameShort];
      }
      assert newErrors == Put(e1, "lastName", NameError(formData.lastName, LastNameRequired, LastNameShort));
      if IsEmptyString(formData.birthDate) {
        newErrors := newErrors["birthDate" := "Birth date is required"];
      } else if iso(formData.birthDate).None? {
        newErrors := newErrors["birthDate" := "Invalid date"];
      }
      errors := newErrors;
      valid := newErrors == map[];
    }

    method HandleChange(e: AuthorEdit)
      modifies this
      ensures formData == EditedFields(old(formData), e)
      ensures errors == AfterEdit(old(errors), EditName(e))
    {
      match e {
        case FirstNameInput(s) => formData := formData.(firstName := s);
        case LastNameInput(s) => formData := formData.(lastName := s);
        case BirthDateInput(s) => formData := formData.(birthDate := s);
      }
      var name := EditName(e);
      if name in errors {
        errors := errors - {name};
      }
    }

    /** `handleSubmit`: blocked when invalid; otherwise an update of the given author, or a create. */
    method HandleSubmit(iso: DateParser) returns (call: Option<AuthorCall>)
      modifies this
      ensures formData == old(formData)
      ensures errors == AuthorErrors(formData, iso)
      ensures call.None? <==> errors != map[]
      ensures call.Some? ==> SubmitData(formData, iso).Some?
      ensures call.Some? ==>
        call.value == (var request := SubmitData(formData, iso).value;
                       if author.Some? then UpdateAuthor(author.value.id, request) else CreateAuthor(request))
    {
      var valid := ValidateForm(iso);
      if !valid {
        return None;
      }
      ValidFormConverts(formData, iso);
      var request := AuthorRequest(formData.firstName, formData.lastName, iso(formData.birthDate).value);
      if author.Some? {
        call := Some(UpdateAuthor(author.value.id, request));
      } else {
        call := Some(CreateAuthor(request));
      }
    }
  }
}
