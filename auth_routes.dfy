/**
 * The `/auth` router (app/api/routes/auth.py): `register` and `login` change the user table
 * and the session cache, `/me` only reads, and `logout` checks the token the way `/me`
 * does and then drops the token's session.
 */
module AuthRoutes {
  import opened Common
  import opened Users
  import opened Tokens
  import opened Cache

  /** The cache key of a token's session. */
  function SessionKey(token: string): (key: string)
    ensures |key| == |token| + 8 && key[..8] == "session_" && key[8..] == token
  {
    "session_" + token
  }

  /** Each token has its own session key. */
  lemma SessionKeyInjective(t1: string, t2: string)
    requires SessionKey(t1) == SessionKey(t2)
    ensures t1 == t2
  {
    assert t1 == SessionKey(t1)[8..];
  }

  /** Login tokens and their sessions live for one hour. */
  const SessionLifetime := 3600

  const UsernameTaken := HttpError(400, "Username already taken")
  const EmailTaken := HttpError(400, "Email already taken")
  const BadCredentials := HttpError(401, "Invalid username or password")
  const InvalidToken := HttpError(401, "Invalid token")

  datatype Registered = Registered(message: string, userId: int)
  datatype TokenReply = TokenReply(accessToken: string, tokenType: string)
  datatype Profile = Profile(username: string, email: string)

  /**
   * POST /auth/register: refuses a taken username, then a taken email, and otherwise stores
   * the user with the hash of the password.
   */
  method Register(db: UserStore, h: Hasher, username: string, email: string, password: string)
    returns (r: Result<Registered>)
    requires db.Valid()
    modifies db
    ensures db.Valid()
    ensures FindByUsername(old(db.users), username).Some? ==> r == Err(UsernameTaken)
    ensures FindByUsername(old(db.users), username).None? && FindByEmail(old(db.users), email).Some? ==>
              r == Err(EmailTaken)
    ensures r.Err? ==> db.users == old(db.users) && db.nextId == old(db.nextId)
    ensures r.Ok? ==> && r.value == Registered("User registered successfully", old(db.nextId))
                      && db.users == old(db.users) + [User(old(db.nextId), username, email, h.hash(password))]
                      && db.nextId == old(db.nextId) + 1
    ensures r.Ok? <==> FindByUsername(old(db.users), username).None? && FindByEmail(old(db.users), email).None?
  {
    if FindByUsername(db.users, username).Some? {
      return Err(UsernameTaken);
    }
    if FindByEmail(db.users, email).Some? {
      return Err(EmailTaken);
    }
    var u := db.CreateUser(username, email, h.hash(password));
    return Ok(Registered("User registered successfully", u.id));
  }

  /** The token `login` issues to `user` at time `now`. */
  function LoginToken(k: Codec, user: User, now: int): string {
    CreateAccessToken(k, Claims(Some(user.username), None), Some(SessionLifetime), now)
  }

  /** The user `login` accepts: the first with that username, when the password verifies against its hash. */
  function Authenticate(users: seq<User>, h: Hasher, username: string, password: string): (r: Option<User>)
    ensures r.Some? ==> FindByUsername(users, username) == r && r.value.username == username
    ensures r.Some? ==> h.verify(password, r.value.password)
    ensures r.None? <==> FindByUsername(users, username).None? || !h.verify(password, FindByUsername(users, username).value.password)
  {
    match FindByUsername(users, username)
    case None => None
    case Some(u) => if h.verify(password, u.password) then Some(u) else None
  }

  /**
   * POST /auth/login: checks the password, issues a one-hour token for the username, and
   * stores the username under the token's session key for one hour.
   */
  method Login(users: seq<User>, cache: RedisCache, k: Codec, h: Hasher, username: string, password: string,
               now: int, fault: Option<string>)
    returns (r: Result<TokenReply>)
    modifies cache`store
    ensures Authenticate(users, h, username, password).None? ==> r == Err(BadCredentials) && cache.store == old(cache.store)
    ensures Authenticate(users, h, username, password).Some? && !cache.initialised ==> r == Err(NotInitialised)
    ensures Authenticate(users, h, username, password).Some? && cache.initialised && fault.Some? ==>
              r == Err(CacheError(fault.value))
    ensures r.Err? ==> cache.store == old(cache.store)
    ensures r.Ok? <==> Authenticate(users, h, username, password).Some? && cache.initialised && fault.None?
    ensures r.Ok? ==>
      var u := Authenticate(users, h, username, password).value;
      && r.value == TokenReply(LoginToken(k, u, now), "bearer")
      && cache.store == Put(old(cache.store), SessionKey(r.value.accessToken), u.username, SessionLifetime, now)
  {
    var user := Authenticate(users, h, username, password);
    if user.None? {
      return Err(BadCredentials);
    }
    var token := LoginToken(k, user.value, now);
    var stored := cache.Set(SessionKey(token), user.value.username, SessionLifetime, now, fault);
    if stored.Err? {
      return Err(stored.error);
    }
    return Ok(TokenReply(token, "bearer"));
  }

  /**
   * GET /auth/me: the username and email of the user the token names. It never looks at
   * the session cache, so it keeps answering after logout until the token expires.
   */
  function Me(k: Codec, users: seq<User>, token: string, now: int): (r: Result<Profile>)
    ensures r.Ok? ==> exists u :: u in users && r.value == Profile(u.username, u.email)
    ensures r.Ok? <==> GetUserFromToken(k, users, token, now).Ok?
    ensures r.Ok? ==> var u := GetUserFromToken(k, users, token, now).value; r.value == Profile(u.username, u.email)
    ensures GetUserFromToken(k, users, token, now) == Err(InvalidOrExpired) <==> r == Err(InvalidToken)
    ensures GetUserFromToken(k, users, token, now) == Err(InternalServerError) <==> r == Err(InternalServerError)
    ensures GetUserFromToken(k, users, token, now) in {Err(NoUsername), Err(UserNotFound)} <==> r == Err(UserNotFound)
  {
    var payload :- DecodeAccessToken(k, token, now);
    if payload.None? then Err(InvalidToken)
    else
      // `get_user_by_username(db, None)` matches no row
      var found := if payload.value.sub.None? then None else FindByUsername(users, payload.value.sub.value);
      match found
      case None => Err(UserNotFound)
      case Some(u) => Ok(Profile(u.username, u.email))
  }

  /**
   * POST /auth/logout: answers as `/me` would for a bad token, and otherwise deletes the
   * token's session (present or not).
   */
  method Logout(users: seq<User>, cache: RedisCache, k: Codec, token: string, now: int, fault: Option<string>)
    returns (r: Result<string>)
    modifies cache`store
    ensures Me(k, users, token, now).Err? ==> r == Err(Me(k, users, token, now).error)
    ensures Me(k, users, token, now).Ok? && !cache.initialised ==> r == Err(NotInitialised)
    ensures Me(k, users, token, now).Ok? && cache.initialised && fault.Some? ==> r == Err(CacheError(fault.value))
    ensures r.Ok? <==> Me(k, users, token, now).Ok? && cache.initialised && fault.None?
    ensures r.Ok? ==> r.value == "Logout successful" && cache.store == old(cache.store) - {SessionKey(token)}
    ensures r.Err? ==> cache.store == old(cache.store)
  {
    var me := Me(k, users, token, now);
    if me.Err? {
      return Err(me.error);
    }
    var deleted := cache.Delete(SessionKey(token), fault);
    if deleted.Err? {
      return Err(deleted.error);
    }
    return Ok("Logout successful");
  }

  /** A user registered with a password can log in with that same password. */
  lemma RegisteredCanAuthenticate(users: seq<User>, h: Hasher, id: int, username: string, email: string, password: string)
    requires SoundHasher(h)
    requires FindByUsername(users, username).None?
    ensures Authenticate(users + [User(id, username, email, h.hash(password))], h, username, password)
            == Some(User(id, username, email, h.hash(password)))
  {
    FindByUsernameAppended(users, User(id, username, email, h.hash(password)));
  }

  /** `/me` answers for a freshly issued token with the profile of the user who logged in. */
  lemma MeAfterLogin(k: Codec, users: seq<User>, h: Hasher, username: string, password: string, issued: int, now: int)
    requires SoundCodec(k)
    requires Authenticate(users, h, username, password).Some?
    requires issued <= now <= issued + SessionLifetime
    ensures var u := Authenticate(users, h, username, password).value;
            Me(k, users, LoginToken(k, u, issued), now) == Ok(Profile(u.username, u.email))
  {
    var u := Authenticate(users, h, username, password).value;
    TokenRoundTrip(k, users, u.username, Some(SessionLifetime), issued, now);
  }
}
