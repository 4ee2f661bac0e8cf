/** The navigation bar: a fixed list of links, of which the administrator-only ones are hidden from everyone else. */
module Navigation {
  import opened Wrappers
  import opened Seqs
  import opened Domain
  import App

  /** A link; an absent `adminOnly` is false. */
  datatype NavLink = NavLink(caption: string, path: string, adminOnly: Option<bool>)

  const NavLinks: seq<NavLink> := [
    NavLink("Home", "/", None),
    NavLink("Books", "/books", None),
    NavLink("Authors", "/authors", None),
    NavLink("Genres", "/genres", Some(false)),
    NavLink("My Profile", "/profile", Some(false)),
    NavLink("Users", "/users", Some(true))
  ]

  /** `!link.adminOnly || user?.isAdmin`. */
  function Visible(user: Option<User>): NavLink -> bool {
    (link: NavLink) => !link.adminOnly.GetOr(false) || IsAdmin(user)
  }

  /** `filteredLinks`: the links shown, in their declared order. */
  function FilteredLinks(user: Option<User>): seq<NavLink> {
    Filter(NavLinks, Visible(user))
  }

  /** A link is shown exactly when it is declared and is not administrator-only or the user is an administrator; order is kept. */
  lemma FilteredLinksShape(user: Option<User>)
    ensures forall link :: link in FilteredLinks(user) <==> link in NavLinks && (!link.adminOnly.GetOr(false) || IsAdmin(user))
    ensures IsSubsequence(FilteredLinks(user), NavLinks)
  {
    FilterMembers(NavLinks, Visible(user));
    FilterIsSubsequence(NavLinks, Visible(user));
  }

  /** Anyone but an administrator sees the first five links, that is every link but Users. */
  lemma NonAdminSeesFive(user: Option<User>)
    requires !IsAdmin(user)
    ensures FilteredLinks(user) == NavLinks[..5]
  {
    var keep := Visible(user);
    var head, tail := NavLinks[..5], [NavLinks[5]];
    assert NavLinks == head + tail;
    FilterConcat(head, tail, keep);
    PublicLinksKept(user);
    UsersLinkDropped(user);
    assert head + [] == head;
  }

  lemma PublicLinksKept(user: Option<User>)
    ensures Filter(NavLinks[..5], Visible(user)) == NavLinks[..5]
  {
    FirstFiveArePublic();
    FilterAll(NavLinks[..5], Visible(user));
  }

  lemma UsersLinkDropped(user: Option<User>)
    requires !IsAdmin(user)
    ensures Filter([NavLinks[5]], Visible(user)) == []
  {
    FilterSingle(NavLinks[5], Visible(user));
  }

  /** None of the first five declared links is administrator-only. */
  lemma FirstFiveArePublic()
    ensures forall i :: 0 <= i < 5 ==> NavLinks[..5][i].adminOnly != Some(true)
  {
  }

  lemma NonAdminHasNoUsersLink(user: Option<User>)
    requires !IsAdmin(user)
    ensures forall link :: link in FilteredLinks(user) ==> link.path != "/users"
  {
    FilteredLinksShape(user);
    forall link | link in FilteredLinks(user) ensures link.path != "/users" {
      DeclaredPaths(link);
    }
  }

  /** An administrator sees all six links. */
  lemma AdminSeesAll(user: Option<User>)
    requires IsAdmin(user)
    ensures FilteredLinks(user) == NavLinks
  {
    FilterAll(NavLinks, Visible(user));
  }

  /** The declared paths; only the Users link is administrator-only. */
  lemma DeclaredPaths(link: NavLink)
    requires link in NavLinks
    ensures link.path in {"/", "/books", "/authors", "/genres", "/profile", "/users"}
    ensures link.adminOnly.GetOr(false) <==> link.path == "/users"
  {
  }

  /** Every link a signed-in user is shown leads to a page that renders for that user, never to a redirect. */
  lemma LinksAreReachable(user: User, link: NavLink)
    requires link in FilteredLinks(Some(user))
    ensures App.Navigate(link.path, Some(user)).Render?
  {
    FilteredLinksShape(Some(user));
    DeclaredPaths(link);
    if link.path == "/users" {
      App.OnlyUsersIsAdminOnly(link.path, user);
    } else {
      App.MainPagesRender(link.path, user);
    }
  }
}
