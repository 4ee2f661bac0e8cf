/**
 * The user administration page: the users shown, whether a load is under
 * way, and the user waiting for delete confirmation. What is rendered depends
 * on the loading flag, the list and who is logged in.
 */
module UserList {
  import opened Wrappers
  import opened Seqs
  import opened Domain
  import opened UseNotification

  /** The buttons of one table row: Edit is always there; Delete is there for everyone but oneself. */
  datatype RowActions = RowActions(edit: bool, delete: bool)

  /** What the page renders. */
  datatype UserListView =
    | Spinner
    | AccessDenied
    | NoUsers
    | Table(rows: seq<RowActions>)

  function RowFor(current: User, row: User): (actions: RowActions)
    ensures actions.edit
    ensures actions.delete <==> row.id != current.id
  {
    RowActions(true, current.id != row.id)
  }

  /**
   * The page for a loading flag, a list and the logged-in user: the spinner
   * while the first load is under way, a refusal for anyone but an
   * administrator, and otherwise the table with one row per user.
   */
  function ViewFor(isLoading: bool, users: seq<User>, current: Option<User>): (v: UserListView)
    ensures v == Spinner <==> isLoading && users == []
    ensures v == AccessDenied <==> !(isLoading && users == []) && !IsAdmin(current)
    ensures v == NoUsers <==> !isLoading && users == [] && IsAdmin(current)
    ensures v.Table? ==> IsAdmin(current) && |v.rows| == |users| > 0
    ensures v.Table? ==> forall i :: 0 <= i < |users| ==> v.rows[i] == RowFor(current.value, users[i])
  {
    if isLoading && users == [] then Spinner
    else if !IsAdmin(current) then AccessDenied
    else if users == [] then NoUsers
    else Table(seq(|users|, i requires 0 <= i < |users| => RowFor(current.value, users[i])))
  }

  function OtherUser(id: string): User -> bool {
    (u: User) => u.id != id
  }

  lemma DeleteKeepsOthers(users: seq<User>, id: string)
    ensures forall u: User :: u in Filter(users, OtherUser(id)) <==> u in users && u.id != id
    ensures IsSubsequence(Filter(users, OtherUser(id)), users)
  {
    FilterMembers(users, OtherUser(id));
    FilterIsSubsequence(users, OtherUser(id));
  }

  class UserListPage {
    var users: seq<User>
    var isLoading: bool
    var deleteConfirm: Option<User>
    const currentUser: Option<User>
    const notifier: Notifier

    constructor (currentUser: Option<User>, notifier: Notifier)
      ensures this.currentUser == currentUser && this.notifier == notifier
      ensures users == [] && isLoading && deleteConfirm == None
      ensures View() == Spinner
    {
      this.currentUser := currentUser;
      this.notifier := notifier;
      users := [];
      isLoading := true;
      deleteConfirm := None;
    }

    function View(): UserListView
      reads this
    {
      ViewFor(isLoading, users, currentUser)
    }

    /** `fetchUsers`, given the answer of the listing call; loading is over either way. */
    method FetchUsers(answer: Result<seq<User>>)
      modifies this, notifier
      ensures !isLoading
      ensures answer.Ok? ==> users == answer.value && notifier.notification == old(notifier.notification)
      ensures answer.Err? ==> users == old(users) && notifier.notification == Shown(answer.message, Some(Error))
      ensures deleteConfirm == old(deleteConfirm)
    {
      isLoading := true;
      match answer {
        case Ok(data) => users := data;
        case Err(message) => notifier.ShowNotification(message, Some(Error));
      }
      isLoading := false;
    }

    /** `handleDelete`: the user only waits for confirmation. */
    method HandleDelete(user: User)
      modifies this
      ensures deleteConfirm == Some(user) && users == old(users) && isLoading == old(isLoading)
    {
      deleteConfirm := Some(user);
    }

    /**
     * `handleConfirmDelete`, given the answer of the delete call: nothing
     * pending is a no-op; success removes the users with the pending id and
     * clears the confirmation; failure keeps both.
     */
    method HandleConfirmDelete(answer: Result<()>) returns (asked: Option<string>)
      modifies this, notifier
      ensures asked == if old(deleteConfirm).Some? then Some(old(deleteConfirm).value.id) else None
      ensures asked.None? ==> users == old(users) && deleteConfirm == None
                              && notifier.notification == old(notifier.notification)
      ensures asked.Some? && answer.Ok? ==>
        users == Filter(old(users), OtherUser(asked.value)) && deleteConfirm == None
        && notifier.notification == Shown("User deleted successfully", Some(Success))
      ensures asked.Some? && answer.Err? ==>
        users == old(users) && deleteConfirm == old(deleteConfirm)
        && notifier.notification == Shown(answer.message, Some(Error))
      ensures isLoading == old(isLoading)
    {
      if deleteConfirm.None? {
        return None;
      }
      var id := deleteConfirm.value.id;
      asked := Some(id);
      match answer {
        case Ok(_) =>
          users := Filter(users, OtherUser(id));
          notifier.ShowNotification("User deleted successfully", Some(Success));
          deleteConfirm := None;
        case Err(message) =>
          notifier.ShowNotification(message, Some(Error));
      }
    }
  }
}
