/**
 * The book list page: the books shown, the book waiting for delete
 * confirmation, and the ids of the current user's saved books. Local state
 * changes only after the service call it depends on has answered.
 */
module BookList {
  import opened Wrappers
  import opened Text
  import opened Seqs
  import opened Domain
  import opened UseNotification
  import opened BookService

  /** The test `b => b.id !== id` of the delete filter. */
  function OtherBook(id: string): Book -> bool {
    (b: Book) => b.id != id
  }

  /** The ids of the books the saved-books call answered. */
  function IdsOf(books: seq<Book>): (ids: set<string>)
    ensures forall id :: id in ids <==> exists i :: 0 <= i < |books| && books[i].id == id
  {
    set i | 0 <= i < |books| :: books[i].id
  }

  /** Deleting by id removes exactly the books with that id and keeps the others, in order and with their multiplicity. */
  lemma DeleteKeepsOthers(books: seq<Book>, id: string)
    ensures forall b: Book :: b in Filter(books, OtherBook(id)) <==> b in books && b.id != id
    ensures IsSubsequence(Filter(books, OtherBook(id)), books)
    ensures forall b: Book :: b.id != id ==> multiset(Filter(books, OtherBook(id)))[b] == multiset(books)[b]
  {
    FilterMembers(books, OtherBook(id));
    FilterIsSubsequence(books, OtherBook(id));
    forall b: Book | b.id != id ensures multiset(Filter(books, OtherBook(id)))[b] == multiset(books)[b] {
      FilterCount(books, OtherBook(id), b);
    }
  }

  /** What a book card is handed: edit and delete handlers only for administrators; saving and the saved mark for all. */
  datatype CardProps = CardProps(canEdit: bool, canDelete: bool, isSaved: bool)

  class BookListPage {
    var books: seq<Book>
    var deleteConfirm: Option<Book>
    var savedBookIds: set<string>
    const user: Option<User>
    const notifier: Notifier

    constructor (user: Option<User>, notifier: Notifier)
      ensures this.user == user && this.notifier == notifier
      ensures books == [] && deleteConfirm == None && savedBookIds == {}
    {
      this.user := user;
      this.notifier := notifier;
      books := [];
      deleteConfirm := None;
      savedBookIds := {};
    }

    /** `fetchBooks`, given the answer of the listing call: the list is replaced, or an error is shown. */
    method FetchBooks(answer: Result<seq<Book>>)
      modifies this, notifier
      ensures answer.Ok? ==> books == answer.value && notifier.notification == old(notifier.notification)
      ensures answer.Err? ==> books == old(books) && notifier.notification == Shown(answer.message, Some(Error))
      ensures deleteConfirm == old(deleteConfirm) && savedBookIds == old(savedBookIds)
    {
      match answer {
        case Ok(data) => books := data;
        case Err(message) => notifier.ShowNotification(message, Some(Error));
      }
    }

    /**
     * `fetchUserSavedBooks`: with no user nothing is asked; otherwise the saved
     * set becomes exactly the ids the server answered, and a failure is ignored.
     */
    method FetchUserSavedBooks(answer: Result<seq<Book>>) returns (asked: Option<string>)
      modifies this
      ensures asked == if user.Some? then Some(user.value.id) else None
      ensures asked.Some? && answer.Ok? ==> savedBookIds == IdsOf(answer.value)
      ensures asked.None? || answer.Err? ==> savedBookIds == old(savedBookIds)
      ensures books == old(books) && deleteConfirm == old(deleteConfirm)
    {
      if user.None? {
        return None;
      }
      asked := Some(user.value.id);
      if answer.Ok? {
        savedBookIds := IdsOf(answer.value);
      }
    }

    /** `handleDelete`: the book only waits for confirmation. */
    method HandleDelete(book: Book)
      modifies this
      ensures deleteConfirm == Some(book)
      ensures books == old(books) && savedBookIds == old(savedBookIds)
    {
      deleteConfirm := Some(book);
    }

    /**
     * `handleSaveBook`, given the answer of the add-saved-book call. With no
     * user there is no call and only a prompt to log in. Success adds exactly
     * the book's id (already saved or not); failure leaves the set as it was.
     */
    method HandleSaveBook(book: Book, answer: Result<()>) returns (asked: Option<(string, string)>)
      modifies this, notifier
      ensures asked == if user.Some? then Some((user.value.id, book.id)) else None
      ensures asked.None? ==> savedBookIds == old(savedBookIds)
                              && notifier.notification == Shown("Please login to save books", Some(Error))
      ensures asked.Some? && answer.Ok? ==> savedBookIds == old(savedBookIds) + {book.id}
                                            && notifier.notification == Shown("\"" + book.title + "\" added to saved books", Some(Success))
      ensures asked.Some? && answer.Err? ==> savedBookIds == old(savedBookIds)
                                             && notifier.notification == Shown(answer.message, Some(Error))
      ensures books == old(books) && deleteConfirm == old(deleteConfirm)
    {
      if user.None? {
        notifier.ShowNotification("Please login to save books", Some(Error));
        return None;
      }
      asked := Some((user.value.id, book.id));
      match answer {
        case Ok(_) =>
          savedBookIds := savedBookIds + {book.id};
          notifier.ShowNotification("\"" + book.title + "\" added to saved books", Some(Success));
        case Err(message) =>
          notifier.ShowNotification(message, Some(Error));
      }
    }

    /**
     * `handleConfirmDelete`, given the answer of the delete call: nothing
     * pending is a no-op; success removes every book with the pending id and
     * clears the confirmation; failure keeps both.
     */
    method HandleConfirmDelete(answer: Result<()>) returns (asked: Option<string>)
      modifies this, notifier
      ensures asked == if old(deleteConfirm).Some? then Some(old(deleteConfirm).value.id) else None
      ensures asked.None? ==> books == old(books) && deleteConfirm == None
                              && notifier.notification == old(notifier.notification)
      ensures asked.Some? && answer.Ok? ==>
        books == Filter(old(books), OtherBook(asked.value)) && deleteConfirm == None
        && notifier.notification == Shown("Book deleted successfully", Some(Success))
      ensures asked.Some? && answer.Err? ==>
        books == old(books) && deleteConfirm == old(deleteConfirm)
        && notifier.notification == Shown(answer.message, Some(Error))
      ensures savedBookIds == old(savedBookIds)
    {
      if deleteConfirm.None? {
        return None;
      }
      var id := deleteConfirm.value.id;
      asked := Some(id);
      match answer {
        case Ok(_) =>
          books := Filter(books, OtherBook(id));
          notifier.ShowNotification("Book deleted successfully", Some(Success));
          deleteConfirm := None;
        case Err(message) =>
          notifier.ShowNotification(message, Some(Error));
      }
    }

    /** `handleFilterApply`, given the answer of the filter call: the books answered replace the list as they come. */
    method HandleFilterApply(filters: BookFilterParams, answer: Result<seq<Book>>) returns (query: Query)
      modifies this, notifier
      ensures query == QueryFor(filters)
      ensures answer.Ok? ==> books == answer.value && notifier.notification == old(notifier.notification)
      ensures answer.Err? ==> books == old(books) && notifier.notification == Shown(answer.message, Some(Error))
      ensures deleteConfirm == old(deleteConfirm) && savedBookIds == old(savedBookIds)
    {
      query := BuildQueryParams(filters);
      match answer {
        case Ok(data) => books := data;
        case Err(message) => notifier.ShowNotification(message, Some(Error));
      }
    }

    /** The props of one book card: edit and delete for administrators only, the saved mark from the saved set. */
    function CardFor(book: Book): (p: CardProps)
      reads this
      ensures p.canEdit <==> IsAdmin(user)
      ensures p.canDelete <==> IsAdmin(user)
      ensures p.isSaved <==> book.id in savedBookIds
    {
      CardProps(IsAdmin(user), IsAdmin(user), book.id in savedBookIds)
    }
  }
}
