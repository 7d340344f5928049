/**
 The session held by the authentication context: the signed-in user, the two
 local-storage slots it writes (`authToken` and `adminUser`) and the bearer
 token of the API client. Start-up reads the stored token back; `login`,
 `logout` and `updateUser` are the transitions.

 The user object stored under `adminUser` is kept as the record itself:
 `JSON.stringify` and `JSON.parse` of stored values are not modelled.
 */
module AuthContext {
  import opened JsValues
  import opened Api

  datatype Storage = Storage(authToken: Option<string>, adminUser: Option<UserRecord>)

  datatype AuthState = AuthState(
    user: Option<UserRecord>,
    storage: Storage,
    apiToken: Option<string>,
    loading: bool)

  /** `isAuthenticated`: `!!user` (any user object is truthy). */
  predicate IsAuthenticated(s: AuthState) {
    s.user.Some?
  }

  /** The API client as loaded (`initializeToken`) and the provider before its start-up effect. */
  function Loaded(storage: Storage): (s: AuthState)
    ensures s.user.None? && s.loading && s.storage == storage
    ensures s.apiToken == (if Truthy(storage.authToken) then storage.authToken else None)
  {
    AuthState(None, storage, InitialToken(storage.authToken), true)
  }

  /**
   The start-up effect: a stored token that decodes signs its user in and is
   handed to the API client; one that does not is removed together with the
   stored user. Loading ends in every case.
   */
  function Init(s: AuthState, decode: string -> Option<Claims>): (r: AuthState)
    ensures !r.loading
    ensures !Truthy(s.storage.authToken) ==> r == s.(loading := false)
    ensures Truthy(s.storage.authToken) && CurrentUser(s.storage.authToken, decode).Some?
            ==> r.user == CurrentUser(s.storage.authToken, decode)
                && r.apiToken == s.storage.authToken && r.storage == s.storage
    ensures Truthy(s.storage.authToken) && CurrentUser(s.storage.authToken, decode).None?
            ==> r.user == s.user && r.storage == Storage(None, None) && r.apiToken == s.apiToken
  {
    var token := s.storage.authToken;
    if Truthy(token) then
      var fromToken := CurrentUser(token, decode);
      if fromToken.Some? then
        s.(user := fromToken, apiToken := token, loading := false)
      else
        s.(storage := Storage(None, None), loading := false)
    else
      s.(loading := false)
  }

  /** The `token` property of the login response, if any. */
  function TokenOf(userData: UserRecord): Option<string> {
    if "token" in userData then userData["token"] else None
  }

  /**
   `login(userData)`: with a token, the token is stored and handed to the API
   client, and the user is the one decoded from it (or `userData` when it does
   not decode); without one, the user is `userData` and the token slot is left
   alone. Either way the stored user is the new user.
   */
  function Login(s: AuthState, userData: UserRecord, decode: string -> Option<Claims>): (r: AuthState)
    ensures IsAuthenticated(r)
    ensures r.storage.adminUser == r.user
    ensures r.loading == s.loading
    ensures Truthy(TokenOf(userData)) ==>
              && r.storage.authToken == TokenOf(userData)
              && r.apiToken == TokenOf(userData)
              && r.user == (if CurrentUser(TokenOf(userData), decode).Some?
                            then CurrentUser(TokenOf(userData), decode) else Some(userData))
    ensures !Truthy(TokenOf(userData)) ==>
              && r.user == Some(userData)
              && r.storage.authToken == s.storage.authToken
              && r.apiToken == s.apiToken
  {
    var token := TokenOf(userData);
    if Truthy(token) then
      var stored := s.storage.(authToken := token);
      // `getCurrentUser` reads back the token just stored.
      var fromToken := CurrentUser(stored.authToken, decode);
      var user := if fromToken.Some? then fromToken.value else userData;
      AuthState(Some(user), stored.(adminUser := Some(user)), token, s.loading)
    else
      AuthState(Some(userData), s.storage.(adminUser := Some(userData)), s.apiToken, s.loading)
  }

  /** `logout()`: no user, both storage slots removed, no API token. */
  function Logout(s: AuthState): (r: AuthState)
    ensures !IsAuthenticated(r)
    ensures r.storage.authToken.None? && r.storage.adminUser.None?
    ensures r.apiToken.None?
    ensures r.loading == s.loading
  {
    AuthState(None, Storage(None, None), None, s.loading)
  }

  /**
   `updateUser(newUserData)`: `{ ...user, ...newUserData }`. Supplied properties
   win, the others are kept, and the stored user is the new user. A signed-out
   context (`user` is `null`) ends up with exactly the supplied properties.
   */
  function UpdateUser(s: AuthState, newUserData: UserRecord): (r: AuthState)
    ensures r.user.Some?
    ensures var prior := if s.user.Some? then s.user.value else map[];
            && r.user.value.Keys == prior.Keys + newUserData.Keys
            && (forall k :: k in newUserData ==> r.user.value[k] == newUserData[k])
            && (forall k :: k in prior && k !in newUserData ==> r.user.value[k] == prior[k])
    ensures r.storage.adminUser == r.user
    ensures r.storage.authToken == s.storage.authToken && r.apiToken == s.apiToken
  {
    var prior := if s.user.Some? then s.user.value else map[];
    var updated := prior + newUserData;
    s.(user := Some(updated), storage := s.storage.(adminUser := Some(updated)))
  }

  // ---------------------------------------------------------------------------
  // Properties across transitions

  /** The API client holds the stored token exactly when that token is truthy. */
  predicate TokensAgree(s: AuthState) {
    s.apiToken == (if Truthy(s.storage.authToken) then s.storage.authToken else None)
  }

  /**
   Logging in or out and updating the user keep the API token in step with the
   stored token, and so does a start-up whose stored token decodes.
   */
  lemma TokensStayInStep(s: AuthState, userData: UserRecord, newUserData: UserRecord,
                         decode: string -> Option<Claims>)
    requires TokensAgree(s)
    ensures TokensAgree(Login(s, userData, decode))
    ensures TokensAgree(Logout(s))
    ensures TokensAgree(UpdateUser(s, newUserData))
    ensures CurrentUser(s.storage.authToken, decode).Some? || !Truthy(s.storage.authToken)
            ==> TokensAgree(Init(s, decode))
  {
  }

  /**
   A stored token that does not decode is removed from storage at start-up,
   but the API client keeps it: it was handed over when the client loaded.
   */
  lemma UndecodableTokenOutlivesStartUp(token: string, decode: string -> Option<Claims>)
    requires token != ""
    requires DecodeToken(token, decode).None?
    ensures var r := Init(Loaded(Storage(Some(token), None)), decode);
            && !IsAuthenticated(r)
            && r.storage == Storage(None, None)
            && r.apiToken == Some(token)
            && !TokensAgree(r)
  {
  }

  /** After logging in and then out, nothing of the session remains. */
  lemma LoginThenLogout(s: AuthState, userData: UserRecord, decode: string -> Option<Claims>)
    ensures var r := Logout(Login(s, userData, decode));
            !IsAuthenticated(r) && r.storage == Storage(None, None) && r.apiToken.None?
  {
  }

  /** `updateUser` while signed out signs a user in: `{ ...null, ...data }` is `data`. */
  lemma UpdateWhileSignedOut(s: AuthState, newUserData: UserRecord)
    requires !IsAuthenticated(s)
    ensures IsAuthenticated(UpdateUser(s, newUserData))
    ensures UpdateUser(s, newUserData).user == Some(newUserData)
  {
    var empty: UserRecord := map[];
    assert empty + newUserData == newUserData;
  }
}
