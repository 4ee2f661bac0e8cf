/** The genre list page: the genres shown and the genre waiting for delete confirmation. */
module GenreList {
  import opened Wrappers
  import opened Seqs
  import opened Domain
  import opened UseNotification

  function OtherGenre(id: int): Genre -> bool {
    (g: Genre) => g.id != id
  }

  /** Deleting by id removes exactly the genres with that id and keeps the others, in order. */
  lemma DeleteKeepsOthers(genres: seq<Genre>, id: int)
    ensures forall g: Genre :: g in Filter(genres, OtherGenre(id)) <==> g in genres && g.id != id
    ensures IsSubsequence(Filter(genres, OtherGenre(id)), genres)
    ensures Filter(genres, OtherGenre(id)) == genres <==> forall i :: 0 <= i < |genres| ==> genres[i].id != id
  {
    FilterMembers(genres, OtherGenre(id));
    FilterIsSubsequence(genres, OtherGenre(id));
    FilterAll(genres, OtherGenre(id));
  }

  /** The description cell: `genre.description || '-'`, so a missing or empty description shows a dash. */
  function DescriptionCell(genre: Genre): (cell: string)
    ensures cell == "-" <==> genre.description.None? || genre.description.value in {"", "-"}
    ensures cell != "-" ==> genre.description == Some(cell)
  {
    match genre.description
    case Some(d) => if d == "" then "-" else d
    case None => "-"
  }

  class GenreListPage {
    var genres: seq<Genre>
    var deleteConfirm: Option<Genre>
    const user: Option<User>
    const notifier: Notifier

    constructor (user: Option<User>, notifier: Notifier)
      ensures this.user == user && this.notifier == notifier
      ensures genres == [] && deleteConfirm == None
    {
      this.user := user;
      this.notifier := notifier;
      genres := [];
      deleteConfirm := None;
    }

    /** `fetchGenres`, given the answer of the listing call. */
    method FetchGenres(answer: Result<seq<Genre>>)
      modifies this, notifier
      ensures answer.Ok? ==> genres == answer.value && notifier.notification == old(notifier.notification)
      ensures answer.Err? ==> genres == old(genres) && notifier.notification == Shown(answer.message, Some(Error))
      ensures deleteConfirm == old(deleteConfirm)
    {
      match answer {
        case Ok(data) => genres := data;
        case Err(message) => notifier.ShowNotification(message, Some(Error));
      }
    }

    /** `handleDelete`: the genre only waits for confirmation. */
    method HandleDelete(genre: Genre)
      modifies this
      ensures deleteConfirm == Some(genre) && genres == old(genres)
    {
      deleteConfirm := Some(genre);
    }

    /**
     * `handleConfirmDelete`, given the answer of the delete call: nothing
     * pending is a no-op; success removes the genres with the pending id and
     * clears the confirmation; failure keeps both.
     */
    method HandleConfirmDelete(answer: Result<()>) returns (asked: Option<int>)
      modifies this, notifier
      ensures asked == if old(deleteConfirm).Some? then Some(old(deleteConfirm).value.id) else None
      ensures asked.None? ==> genres == old(genres) && deleteConfirm == None
                              && notifier.notification == old(notifier.notification)
      ensures asked.Some? && answer.Ok? ==>
        genres == Filter(old(genres), OtherGenre(asked.value)) && deleteConfirm == None
        && notifier.notification == Shown("Genre deleted successfully", Some(Success))
      ensures asked.Some? && answer.Err? ==>
        genres == old(genres) && deleteConfirm == old(deleteConfirm)
        && notifier.notification == Shown(answer.message, Some(Error))
    {
      if deleteConfirm.None? {
        return None;
      }
      var id := deleteConfirm.value.id;
      asked := Some(id);
      match answer {
        case Ok(_) =>
          genres := Filter(genres, OtherGenre(id));
          notifier.ShowNotification("Genre deleted successfully", Some(Success));
          deleteConfirm := None;
        case Err(message) =>
          notifier.ShowNotification(message, Some(Error));
      }
    }

    /** The actions column and its buttons are rendered for administrators only. */
    function ShowsActions(): (shown: bool)
      reads this
      ensures shown <==> user.Some? && user.value.isAdmin
    {
      IsAdmin(user)
    }
  }
}
