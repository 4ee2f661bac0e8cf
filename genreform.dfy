/** The genre editor: a required name and a free description. */
module GenreForm {
  import opened Wrappers
  import opened Text
  import opened Validation
  import opened Domain
  import opened Forms

  datatype GenreFields = GenreFields(name: string, description: string)

  datatype GenreCall = CreateGenre(data: GenreFields) | UpdateGenre(id: int, data: GenreFields)

  /** The starting fields: the given genre's name and description (a missing description is empty), or both empty. */
  function InitialFields(genre: Option<Genre>): (d: GenreFields)
    ensures genre.None? ==> d == GenreFields("", "")
    ensures genre.Some? ==> d.name == genre.value.name && d.description == genre.value.description.GetOr("")
  {
    if genre.Some? then GenreFields(genre.value.name, genre.value.description.GetOr(""))
    else GenreFields("", "")
  }

  /** The error object `validateForm` computes: the name is the only field checked. */
  function GenreErrors(d: GenreFields): (e: Errors)
    ensures "name" in e <==> AllWhitespace(d.name)
    ensures "name" in e ==> e["name"] == NameMessage
    ensures e.Keys <= {"name"}
  {
    Put(map[], "name", Required(d.name, NameMessage))
  }

  /** The description never affects validity: any two forms with the same name agree. */
  lemma DescriptionNeverChecked(d: GenreFields, description: string)
    ensures GenreErrors(d.(description := description)) == GenreErrors(d)
    ensures GenreErrors(d) == map[] <==> !AllWhitespace(d.name)
  {
    if GenreErrors(d) != map[] {
      var k :| k in GenreErrors(d);
    }
  }

  datatype GenreEdit = NameInput(text: string) | DescriptionInput(text: string)

  function EditName(e: GenreEdit): string {
    if e.NameInput? then "name" else "description"
  }

  class GenreEditor {
    var formData: GenreFields
    var errors: Errors
    const genre: Option<Genre>

    constructor (genre: Option<Genre>)
      ensures this.genre == genre
      ensures formData == InitialFields(genre) && errors == map[]
    {
      this.genre := genre;
      formData := InitialFields(genre);
      errors := map[];
    }

    method ValidateForm() returns (valid: bool)
      modifies this
      ensures formData == old(formData)
      ensures errors == GenreErrors(formData)
      ensures valid <==> errors == map[]
    {
      var newErrors: Errors := map[];
      if IsEmptyString(formData.name) {
        newErrors := newErrors["name" := NameMessage];
      }
      errors := newErrors;
      valid := newErrors == map[];
    }

    method HandleChange(e: GenreEdit)
      modifies this
      ensures formData == if e.NameInput? then old(formData).(name := e.text) else old(formData).(description := e.text)
      ensures errors == AfterEdit(old(errors), EditName(e))
    {
      match e {
        case NameInput(s) => formData := formData.(name := s);
        case DescriptionInput(s) => formData := formData.(description := s);
      }
      var name := EditName(e);
      if name in errors {
        errors := errors - {name};
      }
    }

    /** `handleSubmit`: blocked when invalid; otherwise the form data goes out as an update of the given genre, or a create. */
    method HandleSubmit() returns (call: Option<GenreCall>)
      modifies this
      ensures formData == old(formData)
      ensures errors == GenreErrors(formData)
      ensures call.None? <==> AllWhitespace(formData.name)
      ensures call.Some? ==> call.value == if genre.Some? then UpdateGenre(genre.value.id, formData) else CreateGenre(formData)
    {
      var valid := ValidateForm();
      if !valid {
        return None;
      }
      if genre.Some? {
        call := Some(UpdateGenre(genre.value.id, formData));
      } else {
        call := Some(CreateGenre(formData));
      }
    }
  }
}
