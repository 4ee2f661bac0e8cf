/**
 * The book editor: its field values, its per-field errors, the checks run
 * before submitting, the genre checkboxes and the request it submits.
 */
module BookForm {
  import opened Wrappers
  import opened Text
  import opened Seqs
  import opened Validation
  import opened Domain
  import opened Forms
  import opened BookService

  /** The editor's fields: year and price hold typed text, or the number copied from the book being edited. */
  datatype BookFields = BookFields(
    title: string,
    authorId: string,
    genreIds: seq<int>,
    isbn: string,
    publishYear: FormValue,
    price: FormValue)

  /** The starting fields: copied from the book being edited, or empty for a new one (a year of 0 shows as empty). */
  function InitialFields(book: Option<Book>): (d: BookFields)
    ensures book.None? ==> d == BookFields("", "", [], "", Text(""), Text(""))
    ensures book.Some? ==> d.title == book.value.title && d.authorId == book.value.authorId && d.isbn == book.value.isbn
    ensures book.Some? ==> d.genreIds == book.value.genreIds.GetOr([]) && d.price == Number(book.value.price)
    ensures book.Some? ==> d.publishYear == if book.value.publishYear != 0 then Number(book.value.publishYear) else Text("")
  {
    match book
    case None => BookFields("", "", [], "", Text(""), Text(""))
    case Some(b) =>
      BookFields(b.title, b.authorId, b.genreIds.GetOr([]), b.isbn,
                 if b.publishYear != 0 then Number(b.publishYear) else Text(""),
                 Number(b.price))
  }

  const TitleMessage := "Title is required"
  const AuthorMessage := "Author is required"
  const GenresMessage := "At least one genre is required"
  const YearMessage := "Invalid year"
  const PriceMessage := "Price is required and must be a non-negative number"

  const CheckedFields: set<string> := {"title", "authorId", "genreIds", "publishYear", "price"}

  /** The year is checked only when filled in: it must be a number between 0 and the current year. */
  predicate YearAcceptable(v: FormValue, parsers: NumberParsers, currentYear: int) {
    Truthy(v) ==> ToNumber(v, parsers).Some? && 0 <= ToNumber(v, parsers).value <= currentYear
  }

  /** The price must be filled in and be a non-negative number. */
  predicate PriceAcceptable(v: FormValue, parsers: NumberParsers) {
    v != Text("") && ToNumber(v, parsers).Some? && ToNumber(v, parsers).value >= 0
  }

  function GenresError(ids: seq<int>): Option<string> {
    if |ids| == 0 then Some(GenresMessage) else None
  }

  function YearError(v: FormValue, parsers: NumberParsers, currentYear: int): Option<string> {
    if YearAcceptable(v, parsers, currentYear) then None else Some(YearMessage)
  }

  function PriceError(v: FormValue, parsers: NumberParsers): Option<string> {
    if PriceAcceptable(v, parsers) then None else Some(PriceMessage)
  }

  /** The error object `validateForm` computes: each failing rule recorded under its field, in rule order. */
  function BookErrors(d: BookFields, parsers: NumberParsers, currentYear: int): Errors {
    var e1 := Put(map[], "title", Required(d.title, TitleMessage));
    var e2 := Put(e1, "authorId", Required(d.authorId, AuthorMessage));
    var e3 := Put(e2, "genreIds", GenresError(d.genreIds));
    var e4 := Put(e3, "publishYear", YearError(d.publishYear, parsers, currentYear));
    Put(e4, "price", PriceError(d.price, parsers))
  }

  /** Each field's error is present exactly when its rule fails, and no other key ever appears. */
  lemma BookErrorsIff(d: BookFields, parsers: NumberParsers, currentYear: int)
    ensures var e := BookErrors(d, parsers, currentYear);
      && ("title" in e <==> AllWhitespace(d.title))
      && ("authorId" in e <==> AllWhitespace(d.authorId))
      && ("genreIds" in e <==> d.genreIds == [])
      && ("publishYear" in e <==> !YearAcceptable(d.publishYear, parsers, currentYear))
      && ("price" in e <==> !PriceAcceptable(d.price, parsers))
      && e.Keys <= CheckedFields
  {
  }

  /** The form is valid exactly when every rule passes. */
  lemma BookValidIff(d: BookFields, parsers: NumberParsers, currentYear: int)
    ensures BookErrors(d, parsers, currentYear) == map[] <==>
      !AllWhitespace(d.title) && !AllWhitespace(d.authorId) && d.genreIds != []
      && YearAcceptable(d.publishYear, parsers, currentYear) && PriceAcceptable(d.price, parsers)
  {
    BookErrorsIff(d, parsers, currentYear);
    IsEmptyStringIffWhitespace(d.title);
    IsEmptyStringIffWhitespace(d.authorId);
    var e := BookErrors(d, parsers, currentYear);
    if e != map[] {
      var k :| k in e;
    }
  }

  /** An empty year is never an error, so a book may be saved without one. */
  lemma EmptyYearAccepted(d: BookFields, parsers: NumberParsers, currentYear: int)
    requires d.publishYear == Text("")
    ensures "publishYear" !in BookErrors(d, parsers, currentYear)
  {
  }

  /** The request `handleSubmit` builds: an empty year or price becomes 0; the rest is copied. */
  function SubmitData(d: BookFields, parsers: NumberParsers): (r: BookRequest)
    ensures r.title == d.title && r.authorId == d.authorId && r.isbn == d.isbn && r.genreIds == d.genreIds
    ensures !Truthy(d.publishYear) ==> r.publishYear == Some(0)
    ensures d.price == Text("") ==> r.price == Some(0)
  {
    BookRequest(
      d.title, d.authorId,
      if d.isbn != "" then d.isbn else "",
      if Truthy(d.publishYear) then ToNumber(d.publishYear, parsers) else Some(0),
      if d.price != Text("") then ToNumber(d.price, parsers) else Some(0),
      d.genreIds)
  }

  /** Once the checks pass, the request carries a year in range (0 for none), a non-negative price and at least one genre. */
  lemma ValidSubmitData(d: BookFields, parsers: NumberParsers, currentYear: int)
    requires BookErrors(d, parsers, currentYear) == map[]
    ensures var r := SubmitData(d, parsers);
      && r.publishYear.Some? && 0 <= r.publishYear.value && (r.publishYear.value <= currentYear || r.publishYear.value == 0)
      && r.price.Some? && r.price.value >= 0
      && r.genreIds != [] && !AllWhitespace(r.title) && !AllWhitespace(r.authorId)
  {
    BookValidIff(d, parsers, currentYear);
  }

  /** The submitted request has its `genreIds` key, so the service sends it without reformatting. */
  lemma SubmitSentAsGiven(d: BookFields, parsers: NumberParsers)
    ensures BodyFor(Request(SubmitData(d, parsers)), parsers) == AsGiven(Request(SubmitData(d, parsers)))
  {
  }

  /** The test `id => id !== genreId` of the unchecking filter. */
  function Without(id: int): int -> bool {
    x => x != id
  }

  /** A genre checkbox: checking appends the id, unchecking removes every occurrence of it. */
  function ToggledGenres(ids: seq<int>, id: int, checked: bool): (r: seq<int>)
    ensures checked ==> r == ids + [id]
    ensures !checked ==> id !in r && IsSubsequence(r, ids)
    ensures !checked ==> forall x :: x != id ==> multiset(r)[x] == multiset(ids)[x]
  {
    if checked then ids + [id]
    else
      var keep := Without(id);
      FilterIsSubsequence(ids, keep);
      FilterMembers(ids, keep);
      forall x | x != id ensures multiset(Filter(ids, keep))[x] == multiset(ids)[x] {
        FilterCount(ids, keep, x);
      }
      Filter(ids, keep)
  }

  /** Checking and then unchecking a genre that was not selected leaves the selection as it was. */
  lemma CheckThenUncheck(ids: seq<int>, id: int)
    requires id !in ids
    ensures ToggledGenres(ToggledGenres(ids, id, true), id, false) == ids
  {
    FilterAll(ids, Without(id));
    FilterAppendDropped(ids, id);
  }

  lemma {:induction false} FilterAppendDropped(s: seq<int>, id: int)
    ensures Filter(s + [id], Without(id)) == Filter(s, Without(id))
  {
    if s == [] {
      assert s + [id] == [id];
      assert [id][1..] == [];
    } else {
      assert (s + [id])[1..] == s[1..] + [id];
      assert (s + [id])[0] == s[0];
      FilterAppendDropped(s[1..], id);
    }
  }

  /** The genres offered as checkboxes: every genre except those named "unknown" in any ASCII letter case. */
  function GenreChoices(genres: seq<Genre>): (r: seq<Genre>)
    ensures forall g :: g in r <==> g in genres && ToLower(g.name) != "unknown"
    ensures IsSubsequence(r, genres)
  {
    var keep := (g: Genre) => ToLower(g.name) != "unknown";
    FilterIsSubsequence(genres, keep);
    FilterMembers(genres, keep);
    Filter(genres, keep)
  }

  /** "Unknown" and "UNKNOWN" are both hidden from the choices. */
  lemma UnknownHidden(genres: seq<Genre>, id: int, description: Option<string>)
    ensures Genre(id, "Unknown", description) !in GenreChoices(genres)
    ensures Genre(id, "UNKNOWN", description) !in GenreChoices(genres)
  {
    assert ToLower("Unknown") == "unknown";
    assert ToLower("UNKNOWN") == "unknown";
  }

  /** A change event from one control, with the value it carries. */
  datatype BookEdit =
    | TitleInput(text: string)
    | AuthorInput(text: string)
    | IsbnInput(text: string)
    | YearInput(text: string)
    | PriceInput(text: string)
    | GenreCheckbox(id: int, checked: bool)

  /** The `name` of the control an event comes from. */
  function EditName(e: BookEdit): string {
    match e
    case TitleInput(_) => "title"
    case AuthorInput(_) => "authorId"
    case IsbnInput(_) => "isbn"
    case YearInput(_) => "publishYear"
    case PriceInput(_) => "price"
    case GenreCheckbox(_, _) => "genreIds"
  }

  /** The fields after an event: only the control's own field changes. */
  function EditedFields(d: BookFields, e: BookEdit): (r: BookFields)
    ensures r.title == if e.TitleInput? then e.text else d.title
    ensures r.authorId == if e.AuthorInput? then e.text else d.authorId
    ensures r.isbn == if e.IsbnInput? then e.text else d.isbn
    ensures r.publishYear == if e.YearInput? then Text(e.text) else d.publishYear
    ensures r.price == if e.PriceInput? then Text(e.text) else d.price
    ensures r.genreIds == if e.GenreCheckbox? then ToggledGenres(d.genreIds, e.id, e.checked) else d.genreIds
  {
    match e
    case TitleInput(s) => d.(title := s)
    case AuthorInput(s) => d.(authorId := s)
    case IsbnInput(s) => d.(isbn := s)
    case YearInput(s) => d.(publishYear := Text(s))
    case PriceInput(s) => d.(price := Text(s))
    case GenreCheckbox(id, checked) => d.(genreIds := ToggledGenres(d.genreIds, id, checked))
  }

  class BookEditor {
    var formData: BookFields
    var errors: Errors
    const book: Option<Book>

    constructor (book: Option<Book>)
      ensures this.book == book
      ensures formData == InitialFields(book) && errors == map[]
    {
      this.book := book;
      formData := InitialFields(book);
      errors := map[];
    }

    /** `validateForm`: the error object is filled one rule at a time and replaces the old one. */
    method ValidateForm(parsers: NumberParsers, currentYear: int) returns (valid: bool)
      modifies this
      ensures formData == old(formData)
      ensures errors == BookErrors(formData, parsers, currentYear)
      ensures valid <==> errors == map[]
    {
      var d := formData;
      var newErrors: Errors := map[];
      if IsEmptyString(d.title) {
        newErrors := newErrors["title" := TitleMessage];
      }
      assert newErrors == Put(map[], "title", Required(d.title, TitleMessage));
      ghost var e1 := newErrors;
      if IsEmptyString(d.authorId) {
        newErrors := newErrors["authorId" := AuthorMessage];
      }
      assert newErrors == Put(e1, "authorId", Required(d.authorId, AuthorMessage));
      ghost var e2 := newErrors;
      if |d.genreIds| == 0 {
        newErrors := newErrors["genreIds" := GenresMessage];
      }
      assert newErrors == Put(e2, "genreIds", GenresError(d.genreIds));
      ghost var e3 := newErrors;
      if Truthy(d.publishYear) {
        var year := ToNumber(d.publishYear, parsers);
        if year.None? || year.value < 0 || year.value > currentYear {
          newErrors := newErrors["publishYear" := YearMessage];
        }
      }
      assert newErrors == Put(e3, "publishYear", YearError(d.publishYear, parsers, currentYear));
      ghost var e4 := newErrors;
      var price := ToNumber(d.price, parsers);
      if d.price == Text("") || price.None? || price.value < 0 {
        newErrors := newErrors["price" := PriceMessage];
      }
      assert newErrors == Put(e4, "price", PriceError(d.price, parsers));
      assert newErrors == BookErrors(d, parsers, currentYear);
      errors := newErrors;
      valid := newErrors == map[];
    }

    /** `handleChange`: the control's field takes the new value and only that field's error is cleared. */
    method HandleChange(e: BookEdit)
      modifies this
      ensures formData == EditedFields(old(formData), e)
      ensures errors == AfterEdit(old(errors), EditName(e))
    {
      match e {
        case GenreCheckbox(id, checked) =>
          if checked {
            formData := formData.(genreIds := formData.genreIds + [id]);
          } else {
            formData := formData.(genreIds := Filter(formData.genreIds, Without(id)));
          }
        case PriceInput(s) => formData := formData.(price := Text(s));
        case TitleInput(s) => formData := formData.(title := s);
        case AuthorInput(s) => formData := formData.(authorId := s);
        case IsbnInput(s) => formData := formData.(isbn := s);
        case YearInput(s) => formData := formData.(publishYear := Text(s));
      }
      var name := EditName(e);
      if name in errors {
        errors := errors - {name};
      }
    }

    /**
     * `handleSubmit`: nothing is sent when the checks fail; otherwise an update
     * of the edited book, or a create when there is none, carrying the submit data.
     */
    method HandleSubmit(parsers: NumberParsers, currentYear: int) returns (call: Option<BookCall>)
      modifies this
      ensures formData == old(formData)
      ensures errors == BookErrors(formData, parsers, currentYear)
      ensures call.None? <==> errors != map[]
      ensures call.Some? ==>
        call.value == (var body := AsGiven(Request(SubmitData(formData, parsers)));
                       if book.Some? then UpdateBook(book.value.id, body) else CreateBook(body))
    {
      var valid := ValidateForm(parsers, currentYear);
      if !valid {
        return None;
      }
      var body := BodyFor(Request(SubmitData(formData, parsers)), parsers);
      if book.Some? {
        call := Some(UpdateBook(book.value.id, body));
      } else {
        call := Some(CreateBook(body));
      }
    }
  }
}
