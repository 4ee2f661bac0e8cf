/** The records the UI exchanges with the REST service, and the JavaScript values its forms hold. */
module Domain {
  import opened Wrappers

  datatype Book = Book(
    id: string,
    title: string,
    authorId: string,
    authorName: Option<string>,
    isbn: string,
    publishYear: int,
    price: int,
    genreIds: Option<seq<int>>,
    genreNames: Option<seq<string>>)

  /** `bookCount` is attached by the with-book-count listing only, so it may be missing. */
  datatype Author = Author(id: string, firstName: string, lastName: string, birthDate: string, bookCount: Option<int>)

  datatype Genre = Genre(id: int, name: string, description: Option<string>)

  datatype User = User(
    id: string,
    isAdmin: bool,
    name: string,
    nickName: string,
    email: string,
    password: string,
    savedBooks: seq<Book>)

  /** `CreateUpdateUserRequest`: what registration, user creation and user update send. */
  datatype UserRequest = UserRequest(isAdmin: bool, name: string, nickName: string, email: string, password: string)

  /** `user?.isAdmin`: an absent user is not an administrator. */
  predicate IsAdmin(user: Option<User>) {
    user.Some? && user.value.isAdmin
  }

  /** A form field of type `number | string`: what the user typed, or a number copied from an entity. */
  datatype FormValue = Text(text: string) | Number(number: int)

  /**
   * JavaScript's string-to-number conversions, which the model does not fix:
   * `Number(s)`, `parseInt(s, 10)` and `parseFloat(s)`; `None` stands for NaN.
   * Numbers are integers here (a price in the smallest currency unit).
   */
  datatype NumberParsers = NumberParsers(
    number: string -> Option<int>,
    parseInt: string -> Option<int>,
    parseFloat: string -> Option<int>)

  /** `Number(v)` for a form value. */
  function ToNumber(v: FormValue, parsers: NumberParsers): Option<int> {
    match v
    case Text(s) => parsers.number(s)
    case Number(n) => Some(n)
  }

  /** JavaScript truthiness of a form value: a non-empty string or a non-zero number. */
  predicate Truthy(v: FormValue) {
    match v
    case Text(s) => s != ""
    case Number(n) => n != 0
  }
}
