/**
 * The login session of `AuthService`: the signed-in user name, kept in memory and
 * mirrored under one key of the browser's key/value storage so that a reload restores it.
 */
module Auth {
  import opened Wrappers

  /** The storage key that holds the signed-in user name. */
  const SessionKey: string := "currentUser"

  /** The only credentials the service accepts. */
  const AdminUser: string := "admin"
  const AdminPassword: string := "123"

  /** The browser's `localStorage`: string keys to string values, shared by every service
      instance of the page. */
  class KeyValueStore {
    var entries: map<string, string>

    constructor (initial: map<string, string>)
      ensures entries == initial
    {
      entries := initial;
    }

    /** `getItem(key)`: the stored value, or `null` when the key is absent. */
    function GetItem(key: string): (r: Option<string>)
      reads this
      ensures r.Some? <==> key in entries
      ensures r.Some? ==> r.value == entries[key]
    {
      if key in entries then Some(entries[key]) else None
    }

    /** `setItem(key, value)`. */
    method SetItem(key: string, value: string)
      modifies this
      ensures entries == old(entries)[key := value]
    {
      entries := entries[key := value];
    }

    /** `removeItem(key)`; removing an absent key is allowed and changes nothing. */
    method RemoveItem(key: string)
      modifies this
      ensures entries == old(entries) - {key}
    {
      entries := entries - {key};
    }
  }

  /** Whether `login` accepts a user name and password. */
  predicate AcceptsCredentials(username: string, password: string) {
    username == AdminUser && password == AdminPassword
  }

  /** The session after `login(username, password)` from session `user`: a successful login
      replaces it, a refused one keeps it. */
  function SessionAfterLogin(user: Option<string>, username: string, password: string): (r: Option<string>)
    ensures AcceptsCredentials(username, password) ==> r == Some(AdminUser)
    ensures !AcceptsCredentials(username, password) ==> r == user
    ensures r.Some? <==> user.Some? || AcceptsCredentials(username, password)
  {
    if AcceptsCredentials(username, password) then Some(username) else user
  }

  /** A refused login leaves an existing session in place, and a successful one from any
      session ends in the same state as a successful one from no session. */
  lemma LoginOutcomes(user: Option<string>, username: string, password: string)
    ensures user.Some? ==> SessionAfterLogin(user, username, password).Some?
    ensures AcceptsCredentials(username, password) ==>
              SessionAfterLogin(user, username, password) == SessionAfterLogin(None, username, password)
    ensures SessionAfterLogin(None, username, password).Some? <==> AcceptsCredentials(username, password)
  {
  }

  /** `AuthService`: `currentUser` is `null` (None) when signed out. */
  class AuthService {
    const store: KeyValueStore
    var currentUser: Option<string>

    /** The in-memory session and the stored entry agree. */
    predicate Synced()
      reads this, store
    {
      currentUser == store.GetItem(SessionKey)
    }

    /** Restores the session from storage, so a reload keeps the user signed in. */
    constructor (store: KeyValueStore)
      ensures this.store == store
      ensures currentUser == store.GetItem(SessionKey)
      ensures Synced()
    {
      this.store := store;
      currentUser := store.GetItem(SessionKey);
    }

    /** `login`: only `admin`/`123` succeeds; a refused attempt changes nothing. */
    method Login(username: string, password: string) returns (ok: bool)
      modifies this, store
      ensures ok <==> AcceptsCredentials(username, password)
      ensures currentUser == SessionAfterLogin(old(currentUser), username, password)
      ensures ok ==> store.entries == old(store.entries)[SessionKey := username]
      ensures !ok ==> store.entries == old(store.entries)
      ensures ok ==> Synced()
      ensures old(Synced()) ==> Synced()
    {
      if username == AdminUser && password == AdminPassword {
        currentUser := Some(username);
        store.SetItem(SessionKey, username);
        return true;
      }
      return false;
    }

    /** `logout`: signs out and removes the stored entry; a second call changes nothing. */
    method Logout()
      modifies this, store
      ensures currentUser == None
      ensures store.entries == old(store.entries) - {SessionKey}
      ensures Synced()
      ensures old(currentUser) == None && old(Synced()) ==> store.entries == old(store.entries)
    {
      currentUser := None;
      store.RemoveItem(SessionKey);
    }

    /** `isLoggedIn`. */
    function IsLoggedIn(): (r: bool)
      reads this
      ensures r <==> currentUser != None
    {
      currentUser.Some?
    }

    /** `getCurrentUser`: the user name exactly when signed in. */
    function GetCurrentUser(): (r: Option<string>)
      reads this
      ensures r.Some? <==> IsLoggedIn()
      ensures r.Some? ==> currentUser == Some(r.value)
    {
      currentUser
    }
  }

  /** A session survives a reload: a fresh service over the same storage, created after a
      successful login, is signed in as `admin`; after a logout it is not. */
  method ReloadKeepsSession(store: KeyValueStore) returns (afterLogin: Option<string>, afterLogout: bool)
    modifies store
    ensures afterLogin == Some(AdminUser)
    ensures !afterLogout
  {
    var first := new AuthService(store);
    var ok := first.Login(AdminUser, AdminPassword);
    var reloaded := new AuthService(store);
    afterLogin := reloaded.GetCurrentUser();
    reloaded.Logout();
    var again := new AuthService(store);
    afterLogout := again.IsLoggedIn();
  }
}
