/** The account request handlers: register, login, logout, read and update the
    current user, change the password. Each answers with a status code and a
    uniform envelope. */
module Views {
  import opened Values
  import opened PyStrings
  import opened Accounts
  import opened Serializers
  import opened Envelope

  /** The access and refresh token strings the token library issues for a user. */
  datatype TokenPair = TokenPair(access: string, refresh: string)

  /** A refresh token's unique identifier (its `jti` claim). */
  type TokenId = string

  /** The `data` of a successful registration or login. */
  function TokenData(s: Store, u: User, tokens: TokenPair): (j: Json)
    ensures j.JObject? && j.fields.Keys == {"user", "access", "refresh"}
    ensures j.fields["user"] == UserData(s, u)
  {
    JObject(map["user" := UserData(s, u), "access" := JStr(tokens.access), "refresh" := JStr(tokens.refresh)])
  }

  // ---------------------------------------------------------------------------
  // Login and the current user (no state change)
  // ---------------------------------------------------------------------------

  const MissingCredentials := "Email and password are required."
  const BadCredentials := "Invalid email or password."
  const Disabled := "This account has been disabled."

  /** The email the handler looks up: the submitted one (empty when absent),
      stripped of surrounding whitespace and lower-cased. */
  function LoginEmail(email: Option<string>): string {
    Normalize(email.GetOr(""))
  }

  /** `LoginView.post` once the two fields are read: `e` is the normalised
      email, `p` the password. `authenticate` is the authentication backend;
      `tokens` is the pair the token library issues for the user. */
  function LoginReply(s: Store, e: string, p: string,
                      authenticate: (string, string) -> Option<User>, tokens: TokenPair): Reply
  {
    if e == "" || p == "" then
      Reply(HTTP_400_BAD_REQUEST, ErrorPayload("ValidationError", MissingCredentials, JNull))
    else
      match authenticate(e, p)
      case None => Reply(HTTP_401_UNAUTHORIZED, ErrorPayload("AuthenticationFailed", BadCredentials, JNull))
      case Some(u) =>
        if !u.isActive then Reply(HTTP_403_FORBIDDEN, ErrorPayload("AccountDisabled", Disabled, JNull))
        else Reply(HTTP_200_OK, SuccessPayload(TokenData(s, u, tokens), "Login successful."))
  }

  /** `LoginView.post`: reads `email` (normalised) and `password`, each
      defaulting to the empty string. */
  function LoginView(s: Store, email: Option<string>, password: Option<string>,
                     authenticate: (string, string) -> Option<User>, tokens: TokenPair): Reply
  {
    LoginReply(s, LoginEmail(email), password.GetOr(""), authenticate, tokens)
  }

  /** The four outcomes of a login and exactly when each happens: 400 for a
      missing field, 401 when the backend finds no account, 403 for a disabled
      account, 200 otherwise. */
  lemma LoginStatuses(s: Store, e: string, p: string,
                      authenticate: (string, string) -> Option<User>, tokens: TokenPair)
    ensures var r := LoginReply(s, e, p, authenticate, tokens);
      && (r.status == 400 <==> e == "" || p == "")
      && (r.status == 401 <==> e != "" && p != "" && authenticate(e, p).None?)
      && (r.status == 403 <==> e != "" && p != "" && authenticate(e, p).Some? && !authenticate(e, p).value.isActive)
      && (r.status == 200 <==> e != "" && p != "" && authenticate(e, p).Some? && authenticate(e, p).value.isActive)
  {
  }

  /** An empty email or password is answered 400 before the backend is asked:
      the reply is the same whatever the backend would say. */
  lemma LoginMissingFieldsSkipAuthenticate(s: Store, e: string, p: string,
                                           auth1: (string, string) -> Option<User>,
                                           auth2: (string, string) -> Option<User>, tokens: TokenPair)
    requires e == "" || p == ""
    ensures LoginReply(s, e, p, auth1, tokens) == LoginReply(s, e, p, auth2, tokens)
    ensures LoginReply(s, e, p, auth1, tokens) == Reply(400, ErrorPayload("ValidationError", MissingCredentials, JNull))
  {
  }

  /** An email made only of whitespace counts as missing. */
  lemma LoginBlankEmailRejected(s: Store, email: string, password: Option<string>,
                                authenticate: (string, string) -> Option<User>, tokens: TokenPair)
    requires forall k :: 0 <= k < |email| ==> IsSpace(email[k])
    ensures LoginView(s, Some(email), password, authenticate, tokens).status == 400
  {
    NormalizeEmptyIff(email);
  }

  /** The backend is asked about one pair only: two backends that agree on it
      give the same reply. */
  lemma LoginAsksOnce(s: Store, e: string, p: string,
                      auth1: (string, string) -> Option<User>,
                      auth2: (string, string) -> Option<User>, tokens: TokenPair)
    requires auth1(e, p) == auth2(e, p)
    ensures LoginReply(s, e, p, auth1, tokens) == LoginReply(s, e, p, auth2, tokens)
  {
  }

  /** Normalising the looked-up email again changes nothing. */
  lemma LoginEmailIdempotent(email: Option<string>)
    ensures LoginEmail(Some(LoginEmail(email))) == LoginEmail(email)
  {
    NormalizeIdempotent(email.GetOr(""));
  }

  /** Submitting the already normalised email gets the same reply as the raw one:
      for emails differing only in case or surrounding whitespace the lookup is
      the same. */
  lemma LoginEmailNormalizedOnce(s: Store, email: Option<string>, password: Option<string>,
                                 authenticate: (string, string) -> Option<User>, tokens: TokenPair)
    ensures LoginView(s, Some(LoginEmail(email)), password, authenticate, tokens)
            == LoginView(s, email, password, authenticate, tokens)
  {
    LoginEmailIdempotent(email);
  }

  /** Every failed authentication gets the same reply, whatever the cause: an
      unknown email and a wrong password cannot be told apart. */
  lemma LoginFailuresIndistinguishable(s1: Store, e1: string, p1: string,
                                       a1: (string, string) -> Option<User>, t1: TokenPair,
                                       s2: Store, e2: string, p2: string,
                                       a2: (string, string) -> Option<User>, t2: TokenPair)
    requires e1 != "" && p1 != "" && a1(e1, p1).None?
    requires e2 != "" && p2 != "" && a2(e2, p2).None?
    ensures LoginReply(s1, e1, p1, a1, t1) == LoginReply(s2, e2, p2, a2, t2)
    ensures LoginReply(s1, e1, p1, a1, t1)
            == Reply(401, ErrorPayload("AuthenticationFailed", BadCredentials, JNull))
  {
  }

  /** A disabled account that authenticates gets 403 and no tokens. */
  lemma LoginDisabledGetsNoTokens(s: Store, e: string, p: string,
                                  authenticate: (string, string) -> Option<User>, tokens: TokenPair)
    requires e != "" && p != "" && authenticate(e, p).Some? && !authenticate(e, p).value.isActive
    ensures var r := LoginReply(s, e, p, authenticate, tokens);
      r.status == 403 && "data" !in r.body
      && "error" in r.body && r.body["error"] == JStr("AccountDisabled")
  {
  }

  /** An active account that authenticates gets 200 and a payload of exactly
      user, access and refresh, where user renders the authenticated account. */
  lemma LoginSuccessBody(s: Store, e: string, p: string,
                         authenticate: (string, string) -> Option<User>, tokens: TokenPair)
    requires e != "" && p != "" && authenticate(e, p).Some? && authenticate(e, p).value.isActive
    ensures var r := LoginReply(s, e, p, authenticate, tokens);
      && r.status == 200 && "data" in r.body
      && r.body["data"] == TokenData(s, authenticate(e, p).value, tokens)
      && r.body["data"].fields.Keys == {"user", "access", "refresh"}
  {
  }

  /** `MeView.get`: 200 with the current user's rendering and no message. */
  function MeView(s: Store, me: string): (r: Reply)
    requires me in s.users
    ensures r.status == 200 && "success" in r.body && r.body["success"] == JBool(true)
    ensures "data" in r.body && r.body["data"] == UserData(s, s.users[me]) && "message" !in r.body
  {
    SuccessPayloadShape(UserData(s, s.users[me]), "");
    Reply(HTTP_200_OK, SuccessPayload(UserData(s, s.users[me]), ""))
  }

  // ---------------------------------------------------------------------------
  // The refresh-token blacklist (an ASSUMED contract of the token library)
  // ---------------------------------------------------------------------------

  /** Constructing a refresh token from the submitted value. `decode` stands for the signature, expiry and shape
      checks: a token that fails them, or whose id is already blacklisted, is
      refused with a token error (None). */
  function RefreshTokenFrom(blacklist: set<TokenId>, raw: Json, decode: Json -> Option<TokenId>): (jti: Option<TokenId>)
    ensures jti.Some? <==> decode(raw).Some? && decode(raw).value !in blacklist
    ensures jti.Some? ==> jti == decode(raw)
  {
    match decode(raw)
    case None => None
    case Some(id) => if id in blacklist then None else Some(id)
  }

  const RefreshRequired := "Refresh token is required."
  const BadRefresh := "Invalid or already expired refresh token."

  /** What `LogoutView.post` answers and what the blacklist becomes. */
  function LogoutOutcome(blacklist: set<TokenId>, refresh: Option<Json>, decode: Json -> Option<TokenId>): (Reply, set<TokenId>) {
    if refresh.None? || !Truthy(refresh.value) then
      (Reply(HTTP_400_BAD_REQUEST, ErrorPayload("ValidationError", RefreshRequired, JNull)), blacklist)
    else
      match RefreshTokenFrom(blacklist, refresh.value, decode)
      case None => (Reply(HTTP_400_BAD_REQUEST, ErrorPayload("TokenError", BadRefresh, JNull)), blacklist)
      case Some(jti) => (Reply(HTTP_200_OK, SuccessPayload(JNull, "Logged out successfully.")), blacklist + {jti})
  }

  /** Logout's three answers: 400 ValidationError with a missing refresh token,
      400 TokenError with one the library refuses, otherwise 200 with data None
      and the token's id added to the blacklist. The blacklist only grows. */
  lemma LogoutCases(blacklist: set<TokenId>, refresh: Option<Json>, decode: Json -> Option<TokenId>)
    ensures var (r, b) := LogoutOutcome(blacklist, refresh, decode);
      && blacklist <= b
      && (refresh.None? || !Truthy(refresh.value) ==>
            r.status == 400 && r.body["error"] == JStr("ValidationError") && b == blacklist)
      && (refresh.Some? && Truthy(refresh.value) && RefreshTokenFrom(blacklist, refresh.value, decode).None? ==>
            r.status == 400 && r.body["error"] == JStr("TokenError") && b == blacklist)
      && (r.status == 200 <==> refresh.Some? && Truthy(refresh.value) && RefreshTokenFrom(blacklist, refresh.value, decode).Some?)
      && (r.status == 200 ==> r.body["data"] == JNull && b == blacklist + {decode(refresh.value).value})
  {
  }

  /** A refresh token, once logged out, is refused by every later logout. */
  lemma RevokedStaysRevoked(blacklist: set<TokenId>, refresh: Option<Json>, decode: Json -> Option<TokenId>,
                            later: set<TokenId>)
    requires LogoutOutcome(blacklist, refresh, decode).0.status == 200
    requires LogoutOutcome(blacklist, refresh, decode).1 <= later
    ensures LogoutOutcome(later, refresh, decode).0.status == 400
    ensures LogoutOutcome(later, refresh, decode).0.body["error"] == JStr("TokenError")
    ensures LogoutOutcome(later, refresh, decode).1 == later
  {
    assert decode(refresh.value).value in LogoutOutcome(blacklist, refresh, decode).1;
  }

  // ---------------------------------------------------------------------------
  // The handlers that change state
  // ---------------------------------------------------------------------------

  /** The persisted state behind the handlers: the account rows and the
      refresh-token blacklist. */
  class AccountsApi {
    var db: Store
    var blacklist: set<TokenId>

    ghost predicate Valid()
      reads this
    {
      Accounts.Valid(db)
    }

    constructor (db: Store)
      requires Accounts.Valid(db)
      ensures Valid() && this.db == db && blacklist == {}
    {
      this.db := db;
      blacklist := {};
    }

    /** `RegisterView.post`. `stage` is the field-level validation outcome;
        `salt`, `newId` and `createdAt` are what the hasher, the database and the
        clock supply; `tokens` is what the token library issues. `created` names
        the row that was inserted. */
    method Register(stage: FieldStage, h: Hasher, salt: Salt, newId: UserId,
                    createdAt: Timestamp, tokens: TokenPair)
      returns (r: Reply, created: Option<User>)
      requires Valid() && WellFormedStage(stage) && newId !in UserIds(db)
      modifies this
      ensures Valid() && blacklist == old(blacklist)
      ensures created.Some? <==> CheckRegistration(old(db), stage).Ok?
      ensures created.None? ==>
                && db == old(db)
                && r == Reply(400, ErrorPayload("ValidationError", "Registration failed.",
                                                JObject(CheckRegistration(old(db), stage).errors)))
      ensures created.Some? ==>
                var u := created.value;
                && u == BuildUser(stage.attrs.fields, newId, createdAt).(password := h.encode(stage.attrs.password, salt))
                && u.role == Free && u.isActive && u.id == newId && u.college == None
                && u.email == stage.attrs.fields.email && u.username == stage.attrs.fields.username
                && old(db).users.Keys == db.users.Keys - {u.email} && u.email !in old(db).users
                && db == old(db).(users := old(db).users[u.email := u])
                && (Sound(h) ==> CheckPassword(u, h, stage.attrs.password))
                && r == Reply(201, SuccessPayload(TokenData(db, u, tokens), "Account created successfully."))
    {
      var checked := CheckRegistration(db, stage);
      if checked.Err? {
        r := ErrorResponse("ValidationError", "Registration failed.", JObject(checked.errors), HTTP_400_BAD_REQUEST);
        created := None;
        return;
      }
      AcceptedIsInsertable(db, stage, newId);
      var t, u := Create(db, checked.value, h, salt, newId, createdAt);
      db := t;
      r := SuccessResponse(TokenData(db, u, tokens), "Account created successfully.", HTTP_201_CREATED);
      created := Some(u);
    }

    /** Blacklisting a refresh token: records the id (ASSUMED contract of the token library). */
    method Blacklist(jti: TokenId)
      modifies this
      ensures blacklist == old(blacklist) + {jti} && db == old(db)
    {
      blacklist := blacklist + {jti};
    }

    /** `LogoutView.post`. `refresh` is the body's `refresh` entry (None when absent). */
    method Logout(refresh: Option<Json>, decode: Json -> Option<TokenId>) returns (r: Reply)
      requires Valid()
      modifies this
      ensures Valid() && db == old(db)
      ensures (r, blacklist) == LogoutOutcome(old(blacklist), refresh, decode)
    {
      if refresh.None? || !Truthy(refresh.value) {
        r := ErrorResponse("ValidationError", RefreshRequired, statusCode := HTTP_400_BAD_REQUEST);
        return;
      }
      var token := RefreshTokenFrom(blacklist, refresh.value, decode);
      if token.None? {
        r := ErrorResponse("TokenError", BadRefresh, statusCode := HTTP_400_BAD_REQUEST);
        return;
      }
      Blacklist(token.value);
      r := SuccessResponse(message := "Logged out successfully.");
    }

    /** `MeView.patch` for the authenticated user `me`. `stage` is the field-level
        validation outcome. None: an unhandled error (the user has no profile but
        profile data was sent) after the user row was already saved. */
    method MePatch(me: string, stage: Checked<UpdateData>) returns (r: Option<Reply>)
      requires Valid() && me in db.users
      requires stage.Ok? ==> Acceptable(db, stage.value)
      modifies this
      ensures Valid() && blacklist == old(blacklist)
      ensures stage.Err? ==>
                && db == old(db)
                && r == Some(Reply(400, ErrorPayload("ValidationError", "Profile update failed.", JObject(stage.errors))))
      ensures stage.Ok? ==>
                var d, u, id := stage.value, old(db).users[me], old(db).users[me].id;
                && db.users == old(db).users[me := Patched(u, d.user)]
                && db.colleges == old(db).colleges
                && (r.None? <==> d.profile != map[] && id !in old(db).profiles)
                && db.profiles == (if r.None? || d.profile == map[] then old(db).profiles
                                   else old(db).profiles[id := PatchedProfile(old(db).profiles[id], d.profile)])
                && (r.Some? ==> r == Some(Reply(200, SuccessPayload(UserData(db, db.users[me]), "Profile updated successfully."))))
    {
      if stage.Err? {
        var reply := ErrorResponse("ValidationError", "Profile update failed.", JObject(stage.errors), HTTP_400_BAD_REQUEST);
        return Some(reply);
      }
      var t, profileMissing := Update(db, me, stage.value);
      db := t;
      if profileMissing {
        return None;
      }
      var reply := SuccessResponse(UserData(db, db.users[me]), "Profile updated successfully.");
      r := Some(reply);
    }

    /** `ChangePasswordView.post` for the authenticated user `me`: the two fields'
        own validation outcomes, then the old-password check. */
    method ChangePassword(me: string, oldPassword: FieldResult, newPassword: FieldResult, h: Hasher, salt: Salt)
      returns (r: Reply)
      requires Valid() && me in db.users
      modifies this
      ensures Valid() && blacklist == old(blacklist)
      ensures var errors := ChangePasswordErrors(old(db).users[me], h, oldPassword, newPassword);
              && (errors != map[] ==>
                    db == old(db) && r == Reply(400, ErrorPayload("ValidationError", "Password change failed.", JObject(errors))))
              && (errors == map[] ==>
                    && newPassword.Passed?
                    && db == old(db).(users := old(db).users[me := SetPassword(old(db).users[me], h, newPassword.value, salt)])
                    && r == Reply(200, SuccessPayload(JNull, "Password changed successfully.")))
      ensures Sound(h) && r.status == 200 ==> CheckPassword(db.users[me], h, newPassword.value)
    {
      var errors := ChangePasswordErrors(db.users[me], h, oldPassword, newPassword);
      if errors != map[] {
        r := ErrorResponse("ValidationError", "Password change failed.", JObject(errors), HTTP_400_BAD_REQUEST);
        return;
      }
      var u := SetPassword(db.users[me], h, newPassword.value, salt);
      db := SaveUser(db, u);
      r := SuccessResponse(message := "Password changed successfully.");
    }
  }

  /** Logging out twice with the same refresh token: the second attempt is
      refused with a token error and changes nothing. */
  method LogoutTwice(api: AccountsApi, refresh: Json, decode: Json -> Option<TokenId>)
    returns (first: Reply, second: Reply)
    requires api.Valid()
    modifies api
    ensures first.status == 200 ==>
              second.status == 400 && "error" in second.body && second.body["error"] == JStr("TokenError")
  {
    first := api.Logout(Some(refresh), decode);
    ghost var afterFirst := api.blacklist;
    second := api.Logout(Some(refresh), decode);
    if first.status == 200 {
      RevokedStaysRevoked(old(api.blacklist), Some(refresh), decode, afterFirst);
    }
  }

  /** Once an accepted registration's row is stored, the same registration is
      refused with an error under `email`. */
  lemma RegisteredEmailTaken(s: Store, st: FieldStage, u: User)
    requires WellFormedStage(st) && CheckRegistration(s, st).Ok? && u.email == st.attrs.fields.email
    ensures var r := CheckRegistration(s.(users := s.users[u.email := u]), st);
            r.Err? && "email" in r.errors
  {
    var t := s.(users := s.users[u.email := u]);
    assert "email" !in st.fieldErrors;
    RegistrationErrorsReported(t, st);
  }

  /** A registration whose email is already stored is refused: 400
      `ValidationError` with an error under `email`, and no row changes. */
  method RegisterTaken(api: AccountsApi, stage: FieldStage, h: Hasher, salt: Salt, newId: UserId,
                       createdAt: Timestamp, tokens: TokenPair)
    returns (r: Reply)
    requires api.Valid() && WellFormedStage(stage) && newId !in UserIds(api.db)
    requires "email" !in stage.unread && stage.attrs.fields.email in api.db.users
    modifies api
    ensures api.db == old(api.db) && api.blacklist == old(api.blacklist)
    ensures r.status == 400 && "error" in r.body && r.body["error"] == JStr("ValidationError")
    ensures CheckRegistration(api.db, stage).Err? && "email" in CheckRegistration(api.db, stage).errors
    ensures "details" in r.body && r.body["details"] == JObject(CheckRegistration(api.db, stage).errors)
  {
    RegistrationErrorsReported(api.db, stage);
    ghost var errors := CheckRegistration(api.db, stage).errors;
    assert "email" in errors;
    assert Truthy(JObject(errors));
    ErrorPayloadShape("ValidationError", "Registration failed.", JObject(errors));
    var created;
    r, created := api.Register(stage, h, salt, newId, createdAt, tokens);
  }

  /** The same registration sent twice: once the first one is accepted, the
      second is refused with an error on the email field. */
  method RegisterTwice(api: AccountsApi, stage: FieldStage, h: Hasher, salt: Salt,
                       firstId: UserId, secondId: UserId, createdAt: Timestamp, tokens: TokenPair)
    returns (first: Reply, second: Reply)
    requires api.Valid() && WellFormedStage(stage) && firstId !in UserIds(api.db) && secondId !in UserIds(api.db)
    requires firstId != secondId
    modifies api
    ensures first.status == 201 ==>
              && second.status == 400 && "error" in second.body && second.body["error"] == JStr("ValidationError")
              && CheckRegistration(api.db, stage).Err? && "email" in CheckRegistration(api.db, stage).errors
              && "details" in second.body && second.body["details"] == JObject(CheckRegistration(api.db, stage).errors)
  {
    var created: Option<User>;
    first, created := api.Register(stage, h, salt, firstId, createdAt, tokens);
    if created.None? {
      assert first.status == 400;
      second, created := api.Register(stage, h, salt, secondId, createdAt, tokens);
      return;
    }
    FreshAfterInsert(old(api.db), created.value, secondId);
    assert "email" !in stage.fieldErrors;
    second := RegisterTaken(api, stage, h, salt, secondId, createdAt, tokens);
  }

  /** A password change with a wrong old password leaves the stored password as
      it was, so the old password still verifies. */
  method WrongOldPasswordKeepsPassword(api: AccountsApi, me: string, oldPassword: string,
                                       newPassword: FieldResult, h: Hasher, salt: Salt)
    returns (r: Reply)
    requires api.Valid() && me in api.db.users
    requires !CheckPassword(api.db.users[me], h, oldPassword)
    modifies api
    ensures r.status == 400 && "error" in r.body && r.body["error"] == JStr("ValidationError")
    ensures me in api.db.users && api.db.users[me].password == old(api.db.users[me].password)
  {
    r := api.ChangePassword(me, Passed(oldPassword), newPassword, h, salt);
  }
}
