/**
 * The route table of the application and its access guards. Whether the
 * visitor is signed in is whether the session holds a user; administrator
 * rights are that user's flag.
 */
module App {
  import opened Wrappers
  import opened Domain

  /** The pages the routes render. */
  datatype Page =
    | LoginPage | RegisterPage | AuthPage | HomePage
    | BooksPage | AuthorsPage | AuthorBooksPage(authorId: string) | GenresPage
    | UsersPage | ProfilePage | NotFoundPage

  /** What a route yields: a replacing redirect, or a page in its layout. */
  datatype Outcome = Redirect(to: string) | Render(page: Page)

  /**
   * `ProtectedRoute`: no session sends the visitor to sign in; an
   * administrator-only element without administrator rights sends them to the
   * books; otherwise the element. The two flags default to false when absent.
   */
  function ProtectedRoute(element: Page, isAuthenticated: bool, isAdminOnly: Option<bool>, isAdmin: Option<bool>): (o: Outcome)
    ensures !isAuthenticated ==> o == Redirect("/auth")
    ensures o.Redirect? ==> o.to in {"/auth", "/books"}
    ensures o == Redirect("/books") <==> isAuthenticated && isAdminOnly == Some(true) && isAdmin != Some(true)
    ensures o.Render? <==> isAuthenticated && (isAdminOnly == Some(true) ==> isAdmin == Some(true))
    ensures o.Render? ==> o.page == element
  {
    if !isAuthenticated then Redirect("/auth")
    else if isAdminOnly.GetOr(false) && !isAdmin.GetOr(false) then Redirect("/books")
    else Render(element)
  }

  /** The routes, in the order they are declared; `CatchAll` is `path="*"`. */
  datatype Route =
    | LoginRoute | RegisterRoute | AuthRoute | HomeRoute
    | BooksRoute | AuthorsRoute | AuthorBooksRoute(authorId: string) | GenresRoute
    | UsersRoute | ProfileRoute | CatchAll

  /** A `:authorId` segment: non-empty and without '/'. */
  predicate IsSegment(s: string) {
    s != "" && '/' !in s
  }

  const AuthorsPrefix: string := "/authors/"

  /** The route a path selects: the literal paths, `/authors/:authorId`, and otherwise the catch-all. */
  function Match(path: string): (r: Route)
    ensures r.AuthorBooksRoute? <==> |path| > |AuthorsPrefix| && path[..|AuthorsPrefix|] == AuthorsPrefix && IsSegment(path[|AuthorsPrefix|..])
    ensures r.AuthorBooksRoute? ==> path == AuthorsPrefix + r.authorId
  {
    if path == "/login" then LoginRoute
    else if path == "/register" then RegisterRoute
    else if path == "/auth" then AuthRoute
    else if path == "/" then HomeRoute
    else if path == "/books" then BooksRoute
    else if path == "/authors" then AuthorsRoute
    else if |path| > |AuthorsPrefix| && path[..|AuthorsPrefix|] == AuthorsPrefix && IsSegment(path[|AuthorsPrefix|..])
    then AuthorBooksRoute(path[|AuthorsPrefix|..])
    else if path == "/genres" then GenresRoute
    else if path == "/users" then UsersRoute
    else if path == "/profile" then ProfileRoute
    else CatchAll
  }

  /** The element of each route for the session's user. */
  function RouteOutcome(route: Route, user: Option<User>): Outcome {
    var signedIn := user.Some?;
    match route
    case LoginRoute => if signedIn then Redirect("/books") else Render(LoginPage)
    case RegisterRoute => if signedIn then Redirect("/books") else Render(RegisterPage)
    case AuthRoute => if signedIn then Redirect("/books") else Render(AuthPage)
    case HomeRoute => if signedIn then Render(HomePage) else Redirect("/auth")
    case BooksRoute => ProtectedRoute(BooksPage, signedIn, None, None)
    case AuthorsRoute => ProtectedRoute(AuthorsPage, signedIn, None, None)
    case AuthorBooksRoute(id) => ProtectedRoute(AuthorBooksPage(id), signedIn, None, None)
    case GenresRoute => ProtectedRoute(GenresPage, signedIn, None, None)
    case UsersRoute =>
      ProtectedRoute(UsersPage, signedIn, Some(true), if user.Some? then Some(user.value.isAdmin) else None)
    case ProfileRoute => ProtectedRoute(ProfilePage, signedIn, None, None)
    case CatchAll => if signedIn then Render(NotFoundPage) else Redirect("/auth")
  }

  function Navigate(path: string, user: Option<User>): Outcome {
    RouteOutcome(Match(path), user)
  }

  predicate IsSignInPath(path: string) {
    path in {"/login", "/register", "/auth"}
  }

  /** Without a session every path but the three sign-in pages redirects to /auth, and those render. */
  lemma SignedOutGoesToAuth(path: string)
    ensures IsSignInPath(path) ==> Navigate(path, None).Render?
    ensures !IsSignInPath(path) ==> Navigate(path, None) == Redirect("/auth")
  {
    if !IsSignInPath(path) {
      assert Match(path) !in {LoginRoute, RegisterRoute, AuthRoute};
    }
  }

  /** With a session the sign-in pages send the user on to /books. */
  lemma SignedInLeavesSignIn(path: string, user: User)
    requires IsSignInPath(path)
    ensures Navigate(path, Some(user)) == Redirect("/books")
  {
  }

  /**
   * For a signed-in user the only redirects are away from the sign-in pages,
   * and away from /users when the user is not an administrator: /users is the
   * one administrator-only route.
   */
  lemma OnlyUsersIsAdminOnly(path: string, user: User)
    ensures Navigate(path, Some(user)).Redirect? <==> IsSignInPath(path) || (path == "/users" && !user.isAdmin)
    ensures Navigate(path, Some(user)) == Render(UsersPage) <==> path == "/users" && user.isAdmin
  {
    var r := Match(path);
    if r.AuthorBooksRoute? {
      assert !IsSignInPath(path) && path != "/users" by {
        assert path[..|AuthorsPrefix|] == AuthorsPrefix;
      }
    }
  }

  /** The pages of the main layout that are open to every signed-in user render for them. */
  lemma MainPagesRender(path: string, user: User)
    requires path in {"/", "/books", "/authors", "/genres", "/profile"}
    ensures Navigate(path, Some(user)).Render?
  {
  }

  /** A path no route names shows the 404 page to a signed-in user and sends anyone else to /auth. */
  lemma UnknownPathIsNotFound(path: string, user: Option<User>)
    requires Match(path) == CatchAll
    ensures Navigate(path, user) == if user.Some? then Render(NotFoundPage) else Redirect("/auth")
  {
  }

  /** An author's books are reachable under `/authors/` followed by the author's id, when the id is a single segment. */
  lemma AuthorBooksPath(id: string, user: User)
    requires IsSegment(id)
    ensures Navigate(AuthorsPrefix + id, Some(user)) == Render(AuthorBooksPage(id))
  {
    var path := AuthorsPrefix + id;
    assert path[..|AuthorsPrefix|] == AuthorsPrefix;
    assert path[|AuthorsPrefix|..] == id;
    assert path != "/login" && path != "/register" && path != "/auth" && path != "/" by {
      assert |path| > 9;
    }
    assert path != "/books" && path != "/authors";
  }
}
