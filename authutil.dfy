/**
 * The persisted session: the serialized current user and the bearer token
 * under two fixed keys, and the shape and expiry checks on a JSON Web Token.
 */
module AuthUtil {
  import opened Wrappers
  import opened Text
  import opened Storage
  import opened Domain

  const StorageKey: string := "library-ui.currentUser"
  const TokenKey: string := "library-ui.authToken"

  lemma KeysDiffer()
    ensures StorageKey != TokenKey
  {
    assert StorageKey[11] != TokenKey[11];
  }

  /** `JSON.stringify` and `JSON.parse` of a user record, which the model takes as given. */
  datatype UserCodec = UserCodec(stringify: User -> string, parse: string -> Option<User>)

  /** What JSON guarantees: a serialized object is never the empty string and parses back to itself. */
  ghost predicate RoundTrips(codec: UserCodec) {
    forall u :: codec.stringify(u) != "" && codec.parse(codec.stringify(u)) == Some(u)
  }

  /** `getUserFromStorage`: no entry or an empty one is no user; otherwise whatever parsing yields (none on failure). */
  function StoredUser(entries: map<string, string>, codec: UserCodec): Option<User> {
    match Lookup(entries, StorageKey)
    case None => None
    case Some(raw) => if raw == "" then None else codec.parse(raw)
  }

  /** The store after `saveUserToStorage(user)`: the user key written or removed, every other key as before. */
  function UserSaved(entries: map<string, string>, codec: UserCodec, user: Option<User>): (r: map<string, string>)
    ensures forall k :: k != StorageKey ==> Lookup(r, k) == Lookup(entries, k)
    ensures user.None? ==> StorageKey !in r
    ensures RoundTrips(codec) ==> StoredUser(r, codec) == user
  {
    match user
    case Some(u) => entries[StorageKey := codec.stringify(u)]
    case None => entries - {StorageKey}
  }

  /** The store after `saveTokenToStorage(token)`: a null or empty token removes the key, any other is written. */
  function TokenSaved(entries: map<string, string>, token: Option<string>): (r: map<string, string>)
    ensures forall k :: k != TokenKey ==> Lookup(r, k) == Lookup(entries, k)
    ensures Lookup(r, TokenKey) == if token.Some? && token.value != "" then token else None
  {
    if token.Some? && token.value != "" then entries[TokenKey := token.value] else entries - {TokenKey}
  }

  /** The store after `clearAuthStorage`: exactly the two session keys are gone. */
  function AuthCleared(entries: map<string, string>): (r: map<string, string>)
    ensures StorageKey !in r && TokenKey !in r
    ensures forall k :: k != StorageKey && k != TokenKey ==> Lookup(r, k) == Lookup(entries, k)
  {
    entries - {StorageKey, TokenKey}
  }

  /** `getUserFromStorage`: a throwing read is caught and gives no user. */
  method GetUserFromStorage(store: LocalStorage, codec: UserCodec) returns (user: Option<User>)
    ensures user == if store.fault.Some? then None else StoredUser(store.entries, codec)
  {
    var raw := store.GetItem(StorageKey);
    if raw.Ok? && raw.value.Some? && raw.value.value != "" {
      user := codec.parse(raw.value.value);
    } else {
      user := None;
    }
  }

  /** `saveUserToStorage`: a throwing write is caught and leaves the store as it was. */
  method SaveUserToStorage(store: LocalStorage, codec: UserCodec, user: Option<User>)
    modifies store
    ensures store.entries == if store.fault.Some? then old(store.entries) else UserSaved(old(store.entries), codec, user)
  {
    var thrown;
    if user.Some? {
      thrown := store.SetItem(StorageKey, codec.stringify(user.value));
    } else {
      thrown := store.RemoveItem(StorageKey);
    }
  }

  /** `getTokenFromStorage`: a throwing read is caught and gives no token. */
  method GetTokenFromStorage(store: LocalStorage) returns (token: Option<string>)
    ensures token == if store.fault.Some? then None else Lookup(store.entries, TokenKey)
  {
    var raw := store.GetItem(TokenKey);
    token := if raw.Ok? then raw.value else None;
  }

  /** `saveTokenToStorage`: a throwing write is caught and leaves the store as it was. */
  method SaveTokenToStorage(store: LocalStorage, token: Option<string>)
    modifies store
    ensures store.entries == if store.fault.Some? then old(store.entries) else TokenSaved(old(store.entries), token)
  {
    var thrown;
    if token.Some? && token.value != "" {
      thrown := store.SetItem(TokenKey, token.value);
    } else {
      thrown := store.RemoveItem(TokenKey);
    }
  }

  /**
   * `clearAuthStorage`: the user key, then the token key. A throwing removal
   * is caught, and the removals after it do not run.
   */
  method ClearAuthStorage(store: LocalStorage)
    modifies store
    ensures store.entries == if store.fault.Some? then old(store.entries) else AuthCleared(old(store.entries))
  {
    var thrown := store.RemoveItem(StorageKey);
    if thrown.None? {
      thrown := store.RemoveItem(TokenKey);
    }
  }

  /** A saved non-empty token is what the next read returns; saving "" or null leaves no token. */
  lemma TokenRoundTrip(entries: map<string, string>, t: string)
    ensures t != "" ==> Lookup(TokenSaved(entries, Some(t)), TokenKey) == Some(t)
    ensures TokenSaved(entries, Some("")) == TokenSaved(entries, None)
  {
  }

  /** Saving the user never disturbs the token, and saving the token never disturbs the user. */
  lemma SavesAreIndependent(entries: map<string, string>, codec: UserCodec, user: Option<User>, token: Option<string>)
    ensures Lookup(UserSaved(entries, codec, user), TokenKey) == Lookup(entries, TokenKey)
    ensures StoredUser(TokenSaved(entries, token), codec) == StoredUser(entries, codec)
  {
    KeysDiffer();
  }

  // ---- JSON Web Token shape (section 3 of RFC 7519) and the `exp` claim (section 4.1.4) ----

  /** The decoded payload as far as the checks below use it; `exp` is none when it is missing or not a number. */
  datatype Claims = Claims(exp: Option<int>)

  /**
   * `decodeToken`: a token is three '.'-separated parts; the claims come from
   * the middle one through `decode` (base64 then JSON, taken as given; none
   * when either fails or the payload is JSON null).
   */
  function DecodeToken(token: string, decode: string -> Option<Claims>): (claims: Option<Claims>)
    ensures claims.Some? ==> CountChar(token, '.') == 2
  {
    var parts := Split(token, '.');
    SplitCount(token, '.');
    if |parts| != 3 then None else decode(parts[1])
  }

  /**
   * `isTokenExpired` at time `now` (milliseconds): a malformed or undecodable
   * token counts as expired; otherwise `exp * 1000 < now`, which is false when
   * `exp` is not a number (NaN compares false).
   */
  function IsTokenExpired(token: string, now: int, decode: string -> Option<Claims>): (expired: bool)
    ensures CountChar(token, '.') != 2 ==> expired
  {
    var parts := Split(token, '.');
    SplitCount(token, '.');
    if |parts| != 3 then true
    else match decode(parts[1])
      case None => true
      case Some(claims) => claims.exp.Some? && claims.exp.value * 1000 < now
  }

  /** The two checks agree: a token is expired exactly when it does not decode, or decodes to an `exp` before `now`. */
  lemma ExpiryFromDecode(token: string, now: int, decode: string -> Option<Claims>)
    ensures IsTokenExpired(token, now, decode) <==>
      match DecodeToken(token, decode)
      case None => true
      case Some(c) => c.exp.Some? && c.exp.value * 1000 < now
  {
  }

  /** For a well-formed token `header.payload.signature`, the claims are decoded from `payload`. */
  lemma CompactFormPayload(header: string, payload: string, signature: string, decode: string -> Option<Claims>)
    requires '.' !in header && '.' !in payload && '.' !in signature
    ensures DecodeToken(header + "." + payload + "." + signature, decode) == decode(payload)
  {
    var token := header + "." + payload + "." + signature;
    SplitConcat(header, payload + "." + signature);
    SplitConcat(payload, signature);
    NoSeparatorSplit(header);
    NoSeparatorSplit(payload);
    NoSeparatorSplit(signature);
    assert token == header + "." + (payload + "." + signature);
  }

  lemma {:induction false} NoSeparatorSplit(s: string)
    requires '.' !in s
    ensures Split(s, '.') == [s]
  {
    if s != [] {
      NoSeparatorSplit(s[1..]);
      assert [s[0]] + s[1..] == s;
    }
  }

  /** Splitting `a + "." + b` with no '.' in `a` gives `a` followed by the pieces of `b`. */
  lemma {:induction false} SplitConcat(a: string, b: string)
    requires '.' !in a
    ensures Split(a + "." + b, '.') == [a] + Split(b, '.')
  {
    if a == [] {
      assert a + "." + b == ['.'] + b;
      assert (['.'] + b)[1..] == b;
    } else {
      SplitConcat(a[1..], b);
      var s := a + "." + b;
      assert s[1..] == a[1..] + "." + b;
      assert s[0] == a[0];
      assert [a[0]] + a[1..] == a;
    }
  }

  /** Any token with other than exactly two '.' is expired whatever the clock and the decoder say. */
  lemma MalformedTokenIsExpired(token: string, now: int, decode: string -> Option<Claims>)
    requires CountChar(token, '.') != 2
    ensures IsTokenExpired(token, now, decode)
    ensures DecodeToken(token, decode) == None
  {
  }
}
