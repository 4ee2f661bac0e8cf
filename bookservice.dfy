/**
 * The pure parts of the book service: the filter query assembled from the
 * filter parameters, and the request body built for a create or an update.
 */
module BookService {
  import opened Wrappers
  import opened Text
  import opened Domain

  datatype SortOrder = Asc | Desc

  function SortOrderText(o: SortOrder): (r: string)
    ensures r != ""
  {
    match o
    case Asc => "asc"
    case Desc => "desc"
  }

  /** A genre filter may arrive as the text of a select box or as a number. */
  datatype GenreFilter = GenreText(text: string) | GenreNumber(number: int)

  /** Every field is optional; an absent field is `undefined`. */
  datatype BookFilterParams = BookFilterParams(
    searchTitle: Option<string>,
    filterAuthorId: Option<string>,
    filterGenreId: Option<GenreFilter>,
    sortBy: Option<string>,
    sortOrder: Option<SortOrder>)

  const NoFilter := BookFilterParams(None, None, None, None, None)

  type Query = seq<(string, string)>

  /** The query keys in the order they are appended. */
  const FieldOrder: seq<string> := ["searchTitle", "filterAuthorId", "filterGenreId", "sortBy", "sortOrder"]

  /** The value to append for a field, if the field is truthy: a string field must be non-empty. */
  function TextValue(v: Option<string>): (r: Option<string>)
    ensures r.Some? <==> v.Some? && v.value != ""
    ensures r.Some? ==> r == v
  {
    if v.Some? && v.value != "" then v else None
  }

  /** `String(filterGenreId)` when the field is truthy: a number 0 and an empty string are falsy. */
  function GenreValue(g: Option<GenreFilter>): (r: Option<string>)
    ensures r.Some? ==> r.value != ""
    ensures g == Some(GenreNumber(0)) || g == Some(GenreText("")) || g.None? <==> r.None?
  {
    match g
    case None => None
    case Some(GenreText(s)) => if s != "" then Some(s) else None
    case Some(GenreNumber(n)) => if n != 0 then Some(IntToString(n)) else None
  }

  function OrderValue(o: Option<SortOrder>): (r: Option<string>)
    ensures r.Some? <==> o.Some?
  {
    if o.Some? then Some(SortOrderText(o.value)) else None
  }

  function Param(key: string, value: Option<string>): Query {
    if value.Some? then [(key, value.value)] else []
  }

  /** The query `buildQueryParams` produces: one pair per truthy field, in the fixed field order. */
  function QueryFor(p: BookFilterParams): Query {
    Param("searchTitle", TextValue(p.searchTitle))
    + Param("filterAuthorId", TextValue(p.filterAuthorId))
    + Param("filterGenreId", GenreValue(p.filterGenreId))
    + Param("sortBy", TextValue(p.sortBy))
    + Param("sortOrder", OrderValue(p.sortOrder))
  }

  /** `buildQueryParams`: the pairs are appended one field at a time. */
  method BuildQueryParams(p: BookFilterParams) returns (query: Query)
    ensures query == QueryFor(p)
  {
    query := [];
    if p.searchTitle.Some? && p.searchTitle.value != "" {
      query := query + [("searchTitle", p.searchTitle.value)];
    }
    ghost var q0 := Param("searchTitle", TextValue(p.searchTitle));
    assert query == q0;
    if p.filterAuthorId.Some? && p.filterAuthorId.value != "" {
      query := query + [("filterAuthorId", p.filterAuthorId.value)];
    }
    ghost var q1 := q0 + Param("filterAuthorId", TextValue(p.filterAuthorId));
    assert query == q1;
    var genre := GenreValue(p.filterGenreId);
    if genre.Some? {
      query := query + [("filterGenreId", genre.value)];
    }
    ghost var q2 := q1 + Param("filterGenreId", genre);
    assert query == q2;
    if p.sortBy.Some? && p.sortBy.value != "" {
      query := query + [("sortBy", p.sortBy.value)];
    }
    ghost var q3 := q2 + Param("sortBy", TextValue(p.sortBy));
    assert query == q3;
    if p.sortOrder.Some? {
      query := query + [("sortOrder", SortOrderText(p.sortOrder.value))];
    }
    assert query == q3 + Param("sortOrder", OrderValue(p.sortOrder));
  }

  /** The position of a query key in the field order (5 for a key that is not a filter field). */
  function FieldRank(key: string): (r: nat)
    ensures r <= 5
    ensures r < 5 ==> FieldOrder[r] == key
  {
    if key == "searchTitle" then 0
    else if key == "filterAuthorId" then 1
    else if key == "filterGenreId" then 2
    else if key == "sortBy" then 3
    else if key == "sortOrder" then 4
    else 5
  }

  predicate RanksBelow(q: Query, bound: nat) {
    forall i :: 0 <= i < |q| ==> FieldRank(q[i].0) < bound
  }

  predicate StrictlyOrdered(q: Query) {
    forall i, j :: 0 <= i < j < |q| ==> FieldRank(q[i].0) < FieldRank(q[j].0)
  }

  lemma AppendParam(q: Query, key: string, value: Option<string>)
    requires StrictlyOrdered(q) && RanksBelow(q, FieldRank(key)) && FieldRank(key) < 5
    ensures StrictlyOrdered(q + Param(key, value))
    ensures RanksBelow(q + Param(key, value), FieldRank(key) + 1)
  {
    var r := q + Param(key, value);
    forall i | 0 <= i < |r| ensures FieldRank(r[i].0) < FieldRank(key) + 1 {
      if i < |q| { assert r[i] == q[i]; }
    }
    forall i, j | 0 <= i < j < |r| ensures FieldRank(r[i].0) < FieldRank(r[j].0) {
      if j < |q| { assert r[i] == q[i] && r[j] == q[j]; }
      else { assert r[i] == q[i]; }
    }
  }

  /**
   * The keys come in the fixed field order, each at most once, so there are
   * at most five pairs and every key is a filter field.
   */
  lemma QueryOrdered(p: BookFilterParams)
    ensures StrictlyOrdered(QueryFor(p))
    ensures forall i :: 0 <= i < |QueryFor(p)| ==> QueryFor(p)[i].0 in FieldOrder
    ensures forall i, j :: 0 <= i < j < |QueryFor(p)| ==> QueryFor(p)[i].0 != QueryFor(p)[j].0
    ensures |QueryFor(p)| <= 5
  {
    var q := QueryFor(p);
    QueryRanked(p);
    forall i | 0 <= i < |q| ensures q[i].0 in FieldOrder {
      assert FieldOrder[FieldRank(q[i].0)] == q[i].0;
    }
    RankedLength(q, 5);
  }

  /** Each append keeps the ranks strictly increasing and below the next field's. */
  lemma QueryRanked(p: BookFilterParams)
    ensures StrictlyOrdered(QueryFor(p)) && RanksBelow(QueryFor(p), 5)
  {
    assert FieldRank("searchTitle") == 0 && FieldRank("filterAuthorId") == 1 && FieldRank("filterGenreId") == 2;
    assert FieldRank("sortBy") == 3 && FieldRank("sortOrder") == 4;
    var q0 := Param("searchTitle", TextValue(p.searchTitle));
    AppendParam([], "searchTitle", TextValue(p.searchTitle));
    assert [] + q0 == q0;
    var q1 := q0 + Param("filterAuthorId", TextValue(p.filterAuthorId));
    AppendParam(q0, "filterAuthorId", TextValue(p.filterAuthorId));
    var q2 := q1 + Param("filterGenreId", GenreValue(p.filterGenreId));
    AppendParam(q1, "filterGenreId", GenreValue(p.filterGenreId));
    var q3 := q2 + Param("sortBy", TextValue(p.sortBy));
    AppendParam(q2, "sortBy", TextValue(p.sortBy));
    AppendParam(q3, "sortOrder", OrderValue(p.sortOrder));
    assert q3 + Param("sortOrder", OrderValue(p.sortOrder)) == QueryFor(p);
  }

  lemma {:induction false} RankedLength(q: Query, bound: nat)
    requires StrictlyOrdered(q) && RanksBelow(q, bound)
    ensures |q| <= bound
    decreases |q|
  {
    if q != [] {
      var last := q[|q| - 1];
      var init := q[..|q| - 1];
      assert FieldRank(last.0) < bound;
      forall i | 0 <= i < |init| ensures FieldRank(init[i].0) < FieldRank(last.0) {
        assert init[i] == q[i];
      }
      assert StrictlyOrdered(init) by {
        forall i, j | 0 <= i < j < |init| ensures FieldRank(init[i].0) < FieldRank(init[j].0) {
          assert init[i] == q[i] && init[j] == q[j];
        }
      }
      RankedLength(init, FieldRank(last.0));
    }
  }

  /** A pair is in the query exactly when its field is truthy and carries that value. */
  lemma QueryMembers(p: BookFilterParams, v: string)
    ensures ("searchTitle", v) in QueryFor(p) <==> p.searchTitle == Some(v) && v != ""
    ensures ("filterAuthorId", v) in QueryFor(p) <==> p.filterAuthorId == Some(v) && v != ""
    ensures ("filterGenreId", v) in QueryFor(p) <==> GenreValue(p.filterGenreId) == Some(v)
    ensures ("sortBy", v) in QueryFor(p) <==> p.sortBy == Some(v) && v != ""
    ensures ("sortOrder", v) in QueryFor(p) <==> p.sortOrder.Some? && SortOrderText(p.sortOrder.value) == v
  {
    var q := QueryFor(p);
    ParamMembers("searchTitle", TextValue(p.searchTitle));
    ParamMembers("filterAuthorId", TextValue(p.filterAuthorId));
    ParamMembers("filterGenreId", GenreValue(p.filterGenreId));
    ParamMembers("sortBy", TextValue(p.sortBy));
    ParamMembers("sortOrder", OrderValue(p.sortOrder));
    MemberOfFive(q, Param("searchTitle", TextValue(p.searchTitle)), Param("filterAuthorId", TextValue(p.filterAuthorId)),
      Param("filterGenreId", GenreValue(p.filterGenreId)), Param("sortBy", TextValue(p.sortBy)), Param("sortOrder", OrderValue(p.sortOrder)));
  }

  lemma MemberOfFive(q: Query, a: Query, b: Query, c: Query, d: Query, e: Query)
    requires q == a + b + c + d + e
    ensures forall x :: x in q <==> x in a || x in b || x in c || x in d || x in e
  {
  }

  lemma ParamMembers(key: string, value: Option<string>)
    ensures forall k, v :: (k, v) in Param(key, value) <==> k == key && value == Some(v)
  {
  }

  /** A numeric genre of 0 adds no pair; any other number is sent as its decimal text. */
  lemma GenreNumberParam(p: BookFilterParams, n: int)
    requires p.filterGenreId == Some(GenreNumber(n))
    ensures n == 0 ==> forall v :: ("filterGenreId", v) !in QueryFor(p)
    ensures n != 0 ==> ("filterGenreId", IntToString(n)) in QueryFor(p)
  {
    QueryMembers(p, IntToString(n));
    forall v ensures n == 0 ==> ("filterGenreId", v) !in QueryFor(p) {
      QueryMembers(p, v);
    }
  }

  /** `buildQueryParams({})` is the empty query. */
  lemma EmptyFilterEmptyQuery()
    ensures QueryFor(NoFilter) == []
  {
  }

  /** `searchBooksByTitle(t)` is `filterBooks({searchTitle: t})`: one pair for a non-empty title, none otherwise. */
  function SearchBooksByTitle(title: string): (query: Query)
    ensures query == QueryFor(NoFilter.(searchTitle := Some(title)))
    ensures query == if title != "" then [("searchTitle", title)] else []
  {
    QueryFor(BookFilterParams(Some(title), None, None, None, None))
  }

  // ---- request bodies ----

  /** The `genreIds` member of a loose payload: the key may be missing, or hold something that is not an array. */
  datatype GenreIdsField = NoKey | NotAnArray | Ids(ids: seq<int>)

  /** `BookFormData` as it may arrive at run time: `isbn` may be missing, year and price are text or numbers. */
  datatype BookFormData = BookFormData(
    title: string,
    authorId: string,
    isbn: Option<string>,
    publishYear: FormValue,
    price: FormValue,
    genreIds: GenreIdsField)

  /** `CreateUpdateBookRequest`; a year or price of NaN is `None`. */
  datatype BookRequest = BookRequest(
    title: string,
    authorId: string,
    isbn: string,
    publishYear: Option<int>,
    price: Option<int>,
    genreIds: seq<int>)

  /** `formatBookFormData`. */
  function FormatBookFormData(d: BookFormData, parsers: NumberParsers): (r: BookRequest)
    ensures r.title == d.title && r.authorId == d.authorId
    ensures r.genreIds == if d.genreIds.Ids? then d.genreIds.ids else []
    ensures r.isbn == if d.isbn.Some? then d.isbn.value else ""
    ensures d.publishYear.Number? ==> r.publishYear == Some(d.publishYear.number)
    ensures d.publishYear.Text? ==> r.publishYear == parsers.parseInt(d.publishYear.text)
    ensures d.price.Number? ==> r.price == Some(d.price.number)
    ensures d.price.Text? ==> r.price == parsers.parseFloat(d.price.text)
  {
    BookRequest(
      d.title,
      d.authorId,
      if d.isbn.Some? && d.isbn.value != "" then d.isbn.value else "",
      match d.publishYear
        case Text(s) => parsers.parseInt(s)
        case Number(n) => Some(if n != 0 then n else 0),
      match d.price
        case Text(s) => parsers.parseFloat(s)
        case Number(n) => Some(n),
      if d.genreIds.Ids? then d.genreIds.ids else [])
  }

  /** Formatting a payload that is already numeric and has a genre array changes none of its values. */
  lemma FormatKeepsWellFormed(d: BookFormData, parsers: NumberParsers, isbn: string, year: int, price: int, ids: seq<int>)
    requires d.isbn == Some(isbn) && d.publishYear == Number(year) && d.price == Number(price) && d.genreIds == Ids(ids)
    ensures FormatBookFormData(d, parsers) == BookRequest(d.title, d.authorId, isbn, Some(year), Some(price), ids)
  {
  }

  /** What `createBook` and `updateBook` accept: a finished request or raw form data. */
  datatype BookPayload = Request(request: BookRequest) | FormData(data: BookFormData)

  /** `'genreIds' in data`: a request always has the key; form data may lack it at run time. */
  predicate HasGenreIdsKey(p: BookPayload) {
    p.Request? || !p.data.genreIds.NoKey?
  }

  /** The JSON body `createBook` and `updateBook` send. */
  datatype BookBody = AsGiven(payload: BookPayload) | Formatted(request: BookRequest)

  /** The `'genreIds' in data` dispatch: a payload with the key goes out as it is, any other is formatted. */
  function BodyFor(p: BookPayload, parsers: NumberParsers): (b: BookBody)
    ensures b.AsGiven? <==> HasGenreIdsKey(p)
    ensures b.AsGiven? ==> b.payload == p
    ensures b.Formatted? ==> b.request == FormatBookFormData(p.data, parsers) && b.request.genreIds == []
  {
    if HasGenreIdsKey(p) then AsGiven(p) else Formatted(FormatBookFormData(p.data, parsers))
  }

  /** The two calls the book forms make; both carry a body built by `BodyFor`. */
  datatype BookCall = CreateBook(body: BookBody) | UpdateBook(id: string, body: BookBody)
}
