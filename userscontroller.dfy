/**
 * The server's `api/users` controller: create, update, get one, get all and
 * delete over one in-memory list of users shared by every request, with
 * "bad request" for invalid input and for ids that are not there.
 */
module UsersController {
  import opened Wrappers

  /** A user id; the server draws a fresh GUID for each created user, which the model receives as a parameter. */
  type Guid = string

  datatype ApiUser = ApiUser(id: Guid, firstName: string, lastName: string, age: int)

  /** `CreateUserRequest`, the body of create and update. */
  datatype CreateUserRequest = CreateUserRequest(firstName: string, lastName: string, age: int)

  /** What an action answers: 400, 201 with the user's id and the user, or 200 with one user or the list. */
  datatype ActionResult =
    | BadRequest
    | CreatedAt(id: Guid, user: ApiUser)
    | OkUser(user: ApiUser)
    | OkList(users: seq<ApiUser>)

  /** The position of the first user with `id` (`Where(x => x.Id == id).FirstOrDefault()`). */
  function FirstIndex(users: seq<ApiUser>, id: Guid): (r: Option<nat>)
    ensures r.Some? ==> r.value < |users| && users[r.value].id == id
                        && forall j :: 0 <= j < r.value ==> users[j].id != id
    ensures r.None? <==> forall j :: 0 <= j < |users| ==> users[j].id != id
  {
    if users == [] then None
    else if users[0].id == id then Some(0)
    else match FirstIndex(users[1..], id)
      case None => None
      case Some(k) => Some(k + 1)
  }

  /** No two users share an id. */
  predicate UniqueIds(users: seq<ApiUser>) {
    forall i, j :: 0 <= i < j < |users| ==> users[i].id != users[j].id
  }

  /** The list with the user at `i` given the request's names and age, its id kept. */
  function Updated(users: seq<ApiUser>, i: nat, request: CreateUserRequest): (r: seq<ApiUser>)
    requires i < |users|
    ensures |r| == |users|
    ensures r[i].id == users[i].id
    ensures r[i].firstName == request.firstName && r[i].lastName == request.lastName && r[i].age == request.age
    ensures forall j :: 0 <= j < |users| && j != i ==> r[j] == users[j]
  {
    users[i := users[i].(firstName := request.firstName, lastName := request.lastName, age := request.age)]
  }

  /** The list without the user at `i`. */
  function Removed(users: seq<ApiUser>, i: nat): (r: seq<ApiUser>)
    requires i < |users|
    ensures |r| == |users| - 1
    ensures multiset(r) == multiset(users) - multiset{users[i]}
  {
    assert users == users[..i] + [users[i]] + users[i + 1..];
    users[..i] + users[i + 1..]
  }

  /** An update keeps every id where it was, so ids stay unique. */
  lemma UpdateKeepsIds(users: seq<ApiUser>, i: nat, request: CreateUserRequest)
    requires i < |users|
    ensures forall j :: 0 <= j < |users| ==> Updated(users, i, request)[j].id == users[j].id
    ensures UniqueIds(users) ==> UniqueIds(Updated(users, i, request))
  {
  }

  /** Removing the first user with an id keeps ids unique, and with unique ids no user with that id is left. */
  lemma RemoveFirstMatch(users: seq<ApiUser>, id: Guid)
    requires FirstIndex(users, id).Some?
    ensures UniqueIds(users) ==> UniqueIds(Removed(users, FirstIndex(users, id).value))
    ensures UniqueIds(users) ==> FirstIndex(Removed(users, FirstIndex(users, id).value), id).None?
  {
    var i := FirstIndex(users, id).value;
    var r := Removed(users, i);
    assert forall j :: 0 <= j < |r| ==> r[j] == (if j < i then users[j] else users[j + 1]);
  }

  /** Appending a user with a fresh id keeps ids unique, and that user is then the one found under its id. */
  lemma AppendFresh(users: seq<ApiUser>, user: ApiUser)
    requires forall j :: 0 <= j < |users| ==> users[j].id != user.id
    ensures UniqueIds(users) ==> UniqueIds(users + [user])
    ensures FirstIndex(users + [user], user.id) == Some(|users|)
  {
    var r := users + [user];
    assert forall j :: 0 <= j < |users| ==> r[j] == users[j];
    FirstIndexAt(r, user.id, |users|);
  }

  class Controller {
    /** The static `Users` list, in insertion order. */
    var users: seq<ApiUser>

    constructor ()
      ensures users == []
    {
      users := [];
    }

    /** The lookup shared by update, get and delete: a scan for the first user with `id`. */
    method Find(id: Guid) returns (index: Option<nat>)
      ensures index == FirstIndex(users, id)
    {
      var i := 0;
      while i < |users|
        invariant 0 <= i <= |users|
        invariant forall j :: 0 <= j < i ==> users[j].id != id
      {
        if users[i].id == id {
          FirstIndexAt(users, id, i);
          return Some(i);
        }
        i := i + 1;
      }
      return None;
    }

    /**
     * `Create`: invalid input is refused and nothing changes; otherwise one
     * user with the fresh id and the request's fields is appended and answered.
     */
    method Create(request: CreateUserRequest, isValid: bool, freshId: Guid) returns (result: ActionResult)
      requires forall j :: 0 <= j < |users| ==> users[j].id != freshId
      modifies this
      ensures !isValid ==> result == BadRequest && users == old(users)
      ensures isValid ==>
        var user := ApiUser(freshId, request.firstName, request.lastName, request.age);
        users == old(users) + [user] && result == CreatedAt(freshId, user)
      ensures old(UniqueIds(users)) ==> UniqueIds(users)
    {
      if !isValid {
        return BadRequest;
      }
      var user := ApiUser(freshId, request.firstName, request.lastName, request.age);
      AppendFresh(users, user);
      users := users + [user];
      result := CreatedAt(freshId, user);
    }

    /**
     * `Update`: invalid input or an unknown id is refused and nothing
     * changes; otherwise the first user with the id takes the request's
     * names and age, keeps its id, and is answered.
     */
    method Update(request: CreateUserRequest, id: Guid, isValid: bool) returns (result: ActionResult)
      modifies this
      ensures !isValid || FirstIndex(old(users), id).None? ==> result == BadRequest && users == old(users)
      ensures isValid && FirstIndex(old(users), id).Some? ==>
        var i := FirstIndex(old(users), id).value;
        users == Updated(old(users), i, request) && result == CreatedAt(id, users[i])
      ensures old(UniqueIds(users)) ==> UniqueIds(users)
    {
      if !isValid {
        return BadRequest;
      }
      var index := Find(id);
      if index.None? {
        return BadRequest;
      }
      var i := index.value;
      UpdateKeepsIds(users, i, request);
      users := Updated(users, i, request);
      result := CreatedAt(id, users[i]);
    }

    /** `GetById`: the first user with the id, or a bad request. */
    method GetById(id: Guid) returns (result: ActionResult)
      ensures result == BadRequest <==> forall j :: 0 <= j < |users| ==> users[j].id != id
      ensures result != BadRequest ==> result.OkUser? && result.user == users[FirstIndex(users, id).value]
    {
      var index := Find(id);
      if index.None? {
        return BadRequest;
      }
      result := OkUser(users[index.value]);
    }

    /** `GetAll`: a copy of the list, in insertion order. */
    method GetAll() returns (result: ActionResult)
      ensures result == OkList(users)
    {
      result := OkList(users);
    }

    /**
     * `Delete`: an unknown id is refused and nothing changes; otherwise the
     * first user with the id is removed and the remaining list is answered.
     */
    method Delete(id: Guid) returns (result: ActionResult)
      modifies this
      ensures FirstIndex(old(users), id).None? ==> result == BadRequest && users == old(users)
      ensures FirstIndex(old(users), id).Some? ==>
        users == Removed(old(users), FirstIndex(old(users), id).value) && result == OkList(users)
      ensures old(UniqueIds(users)) ==> UniqueIds(users) && FirstIndex(users, id).None?
    {
      var index := Find(id);
      if index.None? {
        return BadRequest;
      }
      RemoveFirstMatch(users, id);
      users := Removed(users, index.value);
      result := GetAll();
    }
  }

  /** The first index is the one position with that id and none before it. */
  lemma {:induction false} FirstIndexAt(users: seq<ApiUser>, id: Guid, i: nat)
    requires i < |users| && users[i].id == id
    requires forall j :: 0 <= j < i ==> users[j].id != id
    ensures FirstIndex(users, id) == Some(i)
  {
    if i > 0 {
      FirstIndexAt(users[1..], id, i - 1);
    }
  }

  /** A user just created is what a lookup of its id answers. */
  lemma CreateThenGet(users: seq<ApiUser>, request: CreateUserRequest, freshId: Guid)
    requires forall j :: 0 <= j < |users| ==> users[j].id != freshId
    ensures var all := users + [ApiUser(freshId, request.firstName, request.lastName, request.age)];
            FirstIndex(all, freshId).Some? && all[FirstIndex(all, freshId).value] == ApiUser(freshId, request.firstName, request.lastName, request.age)
  {
    AppendFresh(users, ApiUser(freshId, request.firstName, request.lastName, request.age));
  }
}
