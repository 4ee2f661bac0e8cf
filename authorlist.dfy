/**
 * The author list page: the authors with their book counts and the author
 * waiting for delete confirmation. An author who still has books can never
 * reach the confirmation step.
 */
module AuthorList {
  import opened Wrappers
  import opened Text
  import opened Seqs
  import opened Domain
  import opened UseNotification

  /** `(author.bookCount || 0) > 0`: a missing count counts as none. */
  predicate HasBooks(author: Author) {
    author.bookCount.GetOr(0) > 0
  }

  /** The refusal shown for an author who still has books; its count is always present then. */
  function BlockedMessage(author: Author): string
    requires HasBooks(author)
  {
    "Cannot delete author with " + IntToString(author.bookCount.value) + " book(s). Please remove all books first."
  }

  /** The refusal names the author's book count, written in decimal. */
  lemma BlockedMessageNamesCount(author: Author)
    requires HasBooks(author)
    ensures Contains(BlockedMessage(author), IntToString(author.bookCount.value))
  {
    var m := BlockedMessage(author);
    var count := IntToString(author.bookCount.value);
    var prefix := "Cannot delete author with ";
    assert |prefix| == 26;
    assert m[26..26 + |count|] == count;
    assert OccursAt(m, count, 26);
  }

  function OtherAuthor(id: string): Author -> bool {
    (a: Author) => a.id != id
  }

  /** Deleting by id removes exactly the authors with that id and keeps the others, in order. */
  lemma DeleteKeepsOthers(authors: seq<Author>, id: string)
    ensures forall a: Author :: a in Filter(authors, OtherAuthor(id)) <==> a in authors && a.id != id
    ensures IsSubsequence(Filter(authors, OtherAuthor(id)), authors)
  {
    FilterMembers(authors, OtherAuthor(id));
    FilterIsSubsequence(authors, OtherAuthor(id));
  }

  /** The delete button of a card: disabled, with its tooltip, exactly when the handler would refuse. */
  datatype DeleteButton = DeleteButton(disabled: bool, title: string)

  function DeleteButtonFor(author: Author): (b: DeleteButton)
    ensures b.disabled <==> HasBooks(author)
    ensures !b.disabled ==> b.title == ""
  {
    if HasBooks(author) then DeleteButton(true, "Cannot delete: author has " + IntToString(author.bookCount.value) + " book(s)")
    else DeleteButton(false, "")
  }

  class AuthorListPage {
    var authors: seq<Author>
    var deleteConfirm: Option<Author>
    const user: Option<User>
    const notifier: Notifier

    /** Only an author without books is ever waiting for confirmation. */
    predicate Valid()
      reads this
    {
      deleteConfirm.Some? ==> !HasBooks(deleteConfirm.value)
    }

    constructor (user: Option<User>, notifier: Notifier)
      ensures this.user == user && this.notifier == notifier
      ensures authors == [] && deleteConfirm == None
      ensures Valid()
    {
      this.user := user;
      this.notifier := notifier;
      authors := [];
      deleteConfirm := None;
    }

    /** `fetchAuthors`, given the answer of the with-book-count listing. */
    method FetchAuthors(answer: Result<seq<Author>>)
      requires Valid()
      modifies this, notifier
      ensures Valid()
      ensures answer.Ok? ==> authors == answer.value && notifier.notification == old(notifier.notification)
      ensures answer.Err? ==> authors == old(authors) && notifier.notification == Shown(answer.message, Some(Error))
      ensures deleteConfirm == old(deleteConfirm)
    {
      match answer {
        case Ok(data) => authors := data;
        case Err(message) => notifier.ShowNotification(message, Some(Error));
      }
    }

    /** `handleDelete`: an author with books is refused with a message; any other waits for confirmation. */
    method HandleDelete(author: Author)
      requires Valid()
      modifies this, notifier
      ensures Valid()
      ensures HasBooks(author) ==> deleteConfirm == old(deleteConfirm)
                                   && notifier.notification == Shown(BlockedMessage(author), Some(Error))
      ensures !HasBooks(author) ==> deleteConfirm == Some(author) && notifier.notification == old(notifier.notification)
      ensures authors == old(authors)
    {
      if HasBooks(author) {
        notifier.ShowNotification(BlockedMessage(author), Some(Error));
        return;
      }
      deleteConfirm := Some(author);
    }

    /**
     * `handleConfirmDelete`, given the answer of the delete call: nothing
     * pending is a no-op; success removes the authors with the pending id and
     * clears the confirmation; failure keeps both.
     */
    method HandleConfirmDelete(answer: Result<()>) returns (asked: Option<string>)
      requires Valid()
      modifies this, notifier
      ensures Valid()
      ensures asked == if old(deleteConfirm).Some? then Some(old(deleteConfirm).value.id) else None
      ensures asked.Some? ==> !HasBooks(old(deleteConfirm).value)
      ensures asked.None? ==> authors == old(authors) && deleteConfirm == None
                              && notifier.notification == old(notifier.notification)
      ensures asked.Some? && answer.Ok? ==>
        authors == Filter(old(authors), OtherAuthor(asked.value)) && deleteConfirm == None
        && notifier.notification == Shown("Author deleted successfully", Some(Success))
      ensures asked.Some? && answer.Err? ==>
        authors == old(authors) && deleteConfirm == old(deleteConfirm)
        && notifier.notification == Shown(answer.message, Some(Error))
    {
      if deleteConfirm.None? {
        return None;
      }
      var id := deleteConfirm.value.id;
      asked := Some(id);
      match answer {
        case Ok(_) =>
          authors := Filter(authors, OtherAuthor(id));
          notifier.ShowNotification("Author deleted successfully", Some(Success));
          deleteConfirm := None;
        case Err(message) =>
          notifier.ShowNotification(message, Some(Error));
      }
    }

    /** Edit and delete buttons are rendered for administrators only. */
    function ShowsActions(): (shown: bool)
      reads this
      ensures shown <==> user.Some? && user.value.isAdmin
    {
      IsAdmin(user)
    }
  }
}
