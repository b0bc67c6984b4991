/**
 * The client's session store (`phoenix-client/src/store/authStore.js`): the
 * token and user record kept in memory and mirrored in `localStorage` under the
 * keys "token" and "user" (the record as JSON). The session counts as
 * authenticated only when a non-empty token and a parsable, truthy user record
 * were both found; a user record that fails to parse is purged together with
 * the token.
 */
module AuthStore {
  import opened Wrappers
  import opened Browser

  const TokenKey: string := "token"
  const UserKey: string := "user"

  /** The record the login and register pages hand to `login`. */
  datatype UserRecord = UserRecord(email: string, name: string, role: string)

  /**
   * What `JSON.parse` makes of a stored string: it throws, or it yields a falsy
   * value (null, false, 0, ""), or it yields a user record.
   */
  datatype Parsed = Throws | Falsy | User(user: UserRecord)

  /**
   * `JSON.stringify` followed by `JSON.parse` gives the record back, and the
   * text is never empty: what a well-behaved JSON codec promises.
   */
  ghost predicate IsJsonCodec(stringify: UserRecord -> string, parse: string -> Parsed) {
    forall u :: stringify(u) != "" && parse(stringify(u)) == User(u)
  }

  /** The in-memory half of the store. */
  datatype Session = Session(token: Option<string>, user: Option<UserRecord>, isAuthenticated: bool)

  const LoggedOut: Session := Session(None, None, false)

  /** True when `getStoredUser` finds a non-empty user string that `JSON.parse` rejects. */
  predicate StoredUserIsCorrupt(items: map<string, string>, parse: string -> Parsed) {
    UserKey in items && items[UserKey] != "" && parse(items[UserKey]).Throws?
  }

  /** The value `getStoredUser` returns. */
  function StoredUser(items: map<string, string>, parse: string -> Parsed): (user: Option<UserRecord>)
    ensures user.Some? ==> UserKey in items && parse(items[UserKey]) == User(user.value)
    ensures StoredUserIsCorrupt(items, parse) ==> user == None
    ensures UserKey in items && items[UserKey] != "" && parse(items[UserKey]).User? ==> user == Some(parse(items[UserKey]).user)
  {
    if UserKey !in items || items[UserKey] == "" then None
    else match parse(items[UserKey])
      case User(u) => Some(u)
      case _ => None
  }

  /** The storage contents after `getStoredUser` has run. */
  function ItemsAfterLoad(items: map<string, string>, parse: string -> Parsed): (r: map<string, string>)
    ensures StoredUserIsCorrupt(items, parse) ==> r == items - {UserKey, TokenKey}
    ensures !StoredUserIsCorrupt(items, parse) ==> r == items
  {
    if StoredUserIsCorrupt(items, parse) then items - {UserKey, TokenKey} else items
  }

  /**
   * The session the store starts with. The token is read before
   * `getStoredUser` runs, so a purge does not clear it from memory.
   */
  function InitialSession(items: map<string, string>, parse: string -> Parsed): (s: Session)
    ensures s.isAuthenticated <==> s.token.Some? && s.user.Some?
    ensures s.token.Some? <==> TokenKey in items && items[TokenKey] != ""
    ensures s.token.Some? ==> s.token.value == items[TokenKey]
    ensures s.user == StoredUser(items, parse)
  {
    var stored := Lookup(items, TokenKey);
    var token := if stored.Some? && stored.value != "" then stored else None;
    var user := StoredUser(items, parse);
    Session(token, user, token.Some? && user.Some?)
  }

  /** Storage after `login(token, user)`. */
  function LoginItems(items: map<string, string>, token: string, user: UserRecord,
                      stringify: UserRecord -> string): (r: map<string, string>)
    ensures r.Keys == items.Keys + {TokenKey, UserKey}
    ensures r[TokenKey] == token && r[UserKey] == stringify(user)
    ensures forall k :: k in items && k != TokenKey && k != UserKey ==> r[k] == items[k]
  {
    items[TokenKey := token][UserKey := stringify(user)]
  }

  /** Storage after `logout()`. */
  function LogoutItems(items: map<string, string>): (r: map<string, string>)
    ensures TokenKey !in r && UserKey !in r
    ensures forall k :: k in items && k != TokenKey && k != UserKey ==> k in r && r[k] == items[k]
  {
    items - {TokenKey, UserKey}
  }

  /** A corrupt user record is purged with the token and yields no user and no authentication. */
  lemma CorruptUserPurged(items: map<string, string>, parse: string -> Parsed)
    requires StoredUserIsCorrupt(items, parse)
    ensures UserKey !in ItemsAfterLoad(items, parse) && TokenKey !in ItemsAfterLoad(items, parse)
    ensures InitialSession(items, parse).user == None
    ensures !InitialSession(items, parse).isAuthenticated
  {
  }

  /**
   * The purge happens after the token was read: memory keeps a token that
   * storage no longer holds (the session is still not authenticated).
   */
  lemma CorruptUserLeavesTokenInMemory(items: map<string, string>, parse: string -> Parsed)
    requires StoredUserIsCorrupt(items, parse)
    requires TokenKey in items && items[TokenKey] != ""
    ensures InitialSession(items, parse).token == Some(items[TokenKey])
    ensures TokenKey !in ItemsAfterLoad(items, parse)
  {
  }

  /**
   * Logging in with a non-empty token and reloading the page gives back the
   * same token and user, authenticated, and the load purges nothing.
   */
  lemma LoginThenReload(items: map<string, string>, token: string, user: UserRecord,
                        stringify: UserRecord -> string, parse: string -> Parsed)
    requires IsJsonCodec(stringify, parse)
    requires token != ""
    ensures InitialSession(LoginItems(items, token, user, stringify), parse) == Session(Some(token), Some(user), true)
    ensures ItemsAfterLoad(LoginItems(items, token, user, stringify), parse) == LoginItems(items, token, user, stringify)
  {
    var stored := LoginItems(items, token, user, stringify);
    assert stringify(user) != "" && parse(stringify(user)) == User(user);
    assert StoredUser(stored, parse) == Some(user);
  }

  /** Logging out and reloading the page gives the logged-out session, whatever the parser. */
  lemma LogoutThenReload(items: map<string, string>, parse: string -> Parsed)
    ensures InitialSession(LogoutItems(items), parse) == LoggedOut
    ensures ItemsAfterLoad(LogoutItems(items), parse) == LogoutItems(items)
  {
  }

  /**
   * `getStoredUser`: reads the "user" key; an unparsable value removes both
   * keys.
   */
  method GetStoredUser(storage: Storage, parse: string -> Parsed) returns (user: Option<UserRecord>)
    modifies storage
    ensures user == StoredUser(old(storage.items), parse)
    ensures storage.items == ItemsAfterLoad(old(storage.items), parse)
  {
    var raw := storage.GetItem(UserKey);
    if raw == None || raw.value == "" {
      return None;
    }
    var parsed := parse(raw.value);
    if parsed.User? {
      user := Some(parsed.user);
    } else if parsed.Falsy? {
      user := None;
    } else {
      storage.RemoveItem(UserKey);
      storage.RemoveItem(TokenKey);
      user := None;
    }
  }

  /** The zustand store: its state and the `login` / `logout` actions. */
  class Store {
    const storage: Storage
    var token: Option<string>
    var user: Option<UserRecord>
    var isAuthenticated: bool

    function Current(): Session
      reads this
    {
      Session(token, user, isAuthenticated)
    }

    /** Module load: read the token, then run `getStoredUser`. */
    constructor (storage: Storage, parse: string -> Parsed)
      modifies storage
      ensures this.storage == storage
      ensures Current() == InitialSession(old(storage.items), parse)
      ensures storage.items == ItemsAfterLoad(old(storage.items), parse)
    {
      this.storage := storage;
      var storedToken := storage.GetItem(TokenKey);
      var storedUser := GetStoredUser(storage, parse);
      var t := if storedToken.Some? && storedToken.value != "" then storedToken else None;
      token := t;
      user := storedUser;
      isAuthenticated := t.Some? && storedUser.Some?;
    }

    /** `login(token, user)`: both keys are written and the session becomes authenticated. */
    method Login(newToken: string, newUser: UserRecord, stringify: UserRecord -> string)
      modifies this, storage
      ensures storage.items == LoginItems(old(storage.items), newToken, newUser, stringify)
      ensures Current() == Session(Some(newToken), Some(newUser), true)
    {
      storage.SetItem(TokenKey, newToken);
      storage.SetItem(UserKey, stringify(newUser));
      token, user, isAuthenticated := Some(newToken), Some(newUser), true;
    }

    /** `logout()`: both keys are removed and the session is cleared. */
    method Logout()
      modifies this, storage
      ensures storage.items == LogoutItems(old(storage.items))
      ensures Current() == LoggedOut
    {
      storage.RemoveItem(TokenKey);
      storage.RemoveItem(UserKey);
      token, user, isAuthenticated := None, None, false;
    }
  }
}
