/**
 * The authentication hook: the current user held in component state and
 * mirrored into `localStorage` under the same key the storage helpers use.
 * Every component that calls the hook gets its own session object.
 */
module UseAuth {
  import opened Wrappers
  import opened Domain
  import opened Storage
  import opened AuthUtil

  class AuthSession {
    var user: Option<User>
    const store: LocalStorage
    const codec: UserCodec

    /** What a fresh hook would read back from storage: nothing when the store throws. */
    function ReadBack(): Option<User>
      reads store
    {
      if store.fault.Some? then None else StoredUser(store.entries, codec)
    }

    /** The state the hook holds agrees with what a fresh hook would read back. */
    predicate Synced()
      reads this, store
    {
      ReadBack() == user
    }

    predicate IsAuthenticated()
      reads this
    {
      user.Some?
    }

    /**
     * The hook's first render: the user is read from storage (none when
     * missing, empty or unparsable, and none when the read throws).
     */
    constructor (store: LocalStorage, codec: UserCodec)
      ensures this.store == store && this.codec == codec
      ensures user == if store.fault.Some? then None else StoredUser(store.entries, codec)
      ensures Synced()
    {
      this.store := store;
      this.codec := codec;
      user := if store.fault.Some? then None else StoredUser(store.entries, codec);
    }

    /**
     * `setUser`: the state takes the new user and storage is written (or
     * cleared for none). A throwing store is ignored, so the state then
     * disagrees with storage whenever there is a user.
     */
    method SetUser(next: Option<User>)
      modifies this, store
      ensures user == next
      ensures store.entries == if store.fault.Some? then old(store.entries) else UserSaved(old(store.entries), codec, next)
      ensures store.fault.None? && RoundTrips(codec) ==> Synced()
      ensures store.fault.Some? ==> (Synced() <==> next.None?)
    {
      user := next;
      SaveUserToStorage(store, codec, next);
    }

    method Login(next: User)
      modifies this, store
      ensures user == Some(next) && IsAuthenticated()
      ensures store.entries == if store.fault.Some? then old(store.entries) else UserSaved(old(store.entries), codec, Some(next))
      ensures store.fault.None? && RoundTrips(codec) ==> Synced()
      ensures store.fault.Some? ==> !Synced()
    {
      SetUser(Some(next));
    }

    /** `logout`: no user, and the stored user is removed while the token (if any) is left in place. */
    method Logout()
      modifies this, store
      ensures user == None && !IsAuthenticated()
      ensures store.entries == if store.fault.Some? then old(store.entries) else old(store.entries) - {StorageKey}
      ensures Lookup(store.entries, TokenKey) == Lookup(old(store.entries), TokenKey)
      ensures Synced()
    {
      SetUser(None);
      KeysDiffer();
    }
  }
}
