/**
 * The authentication gate (`verify_token`, app/main.py), the dependency every resource
 * router runs before its handler. A request passes only when the token's session is in the
 * cache with a non-empty value AND the token itself names a user. The check ends in the
 * user object or an exception; its "Not authenticated" branch cannot fire, because a user
 * object is always truthy.
 */
module Gate {
  import opened Common
  import opened Users
  import opened Tokens
  import opened Cache
  import opened AuthRoutes

  const SessionMissing := HttpError(401, "Session not found or expired")

  /** `if not session`: Redis gives None for a missing key, and an empty value is falsy too. */
  predicate SessionPresent(session: Option<string>) {
    session.Some? && session.value != ""
  }

  /** `verify_token(token)` over the cache's state and the user table, at time `now`. */
  function VerifyToken(initialised: bool, store: map<string, Entry>, k: Codec, users: seq<User>,
                       token: string, now: int, fault: Option<string>): (r: Result<User>)
    ensures r.Ok? ==> && initialised && fault.None?
                      && SessionKey(token) in store && Live(store[SessionKey(token)], now)
                      && store[SessionKey(token)].value != ""
                      && GetUserFromToken(k, users, token, now) == Ok(r.value)
    ensures initialised && fault.None? && !SessionPresent(Lookup(store, SessionKey(token), now)) ==> r == Err(SessionMissing)
    ensures initialised && fault.None? && SessionPresent(Lookup(store, SessionKey(token), now)) ==>
              r == GetUserFromToken(k, users, token, now)
    ensures !initialised || fault.Some? ==> r == Err(GetCache(initialised, store, SessionKey(token), now, fault).error)
    ensures r.Err? ==> r.error.status in {401, 500}
  {
    var session :- GetCache(initialised, store, SessionKey(token), now, fault);
    if !SessionPresent(session) then Err(SessionMissing)
    else GetUserFromToken(k, users, token, now)
  }

  /**
   * A successful login opens the gate for its token from the login second until one hour
   * later, for the user who logged in, provided the username is not empty.
   */
  lemma LoginOpensGate(k: Codec, users: seq<User>, h: Hasher, store: map<string, Entry>,
                       username: string, password: string, issued: int, now: int)
    requires SoundCodec(k)
    requires Authenticate(users, h, username, password).Some? && username != ""
    requires issued <= now <= issued + SessionLifetime
    ensures var u := Authenticate(users, h, username, password).value;
            var token := LoginToken(k, u, issued);
            VerifyToken(true, Put(store, SessionKey(token), u.username, SessionLifetime, issued), k, users, token, now, None)
              == Ok(u)
  {
    var u := Authenticate(users, h, username, password).value;
    TokenRoundTrip(k, users, u.username, Some(SessionLifetime), issued, now);
  }

  /** One second after the hour is up, the session of a login has expired and the gate refuses it. */
  lemma LoginSessionExpires(k: Codec, users: seq<User>, store: map<string, Entry>, u: User, issued: int, now: int)
    requires now > issued + SessionLifetime
    ensures var token := LoginToken(k, u, issued);
            VerifyToken(true, Put(store, SessionKey(token), u.username, SessionLifetime, issued), k, users, token, now, None)
              == Err(SessionMissing)
  {
  }

  /**
   * A user whose username is empty can log in, but the session value stored for them is the
   * empty string, which the gate treats as no session: every gated request is refused.
   */
  lemma EmptyUsernameLockedOut(k: Codec, users: seq<User>, store: map<string, Entry>, u: User, issued: int, now: int)
    requires u.username == ""
    ensures var token := LoginToken(k, u, issued);
            VerifyToken(true, Put(store, SessionKey(token), u.username, SessionLifetime, issued), k, users, token, now, None)
              == Err(SessionMissing)
  {
  }

  /** After the token's session is deleted, the gate refuses that token whatever the token itself says. */
  lemma LogoutClosesGate(k: Codec, users: seq<User>, store: map<string, Entry>, token: string, now: int)
    ensures VerifyToken(true, store - {SessionKey(token)}, k, users, token, now, None) == Err(SessionMissing)
  {
  }

  /** Deleting one token's session leaves the gate's answer for every other token unchanged. */
  lemma LogoutIsPerToken(k: Codec, users: seq<User>, store: map<string, Entry>, token: string, other: string, now: int)
    requires other != token
    ensures VerifyToken(true, store - {SessionKey(token)}, k, users, other, now, None)
            == VerifyToken(true, store, k, users, other, now, None)
  {
    if SessionKey(token) == SessionKey(other) {
      SessionKeyInjective(token, other);
    }
  }

  /**
   * A session entry is not enough on its own: with a token the codec rejects, the gate
   * refuses even when a live session is stored under that token's key.
   */
  lemma SessionWithoutValidToken(k: Codec, users: seq<User>, store: map<string, Entry>, token: string, now: int)
    requires k.verify(token).None?
    requires SessionPresent(Lookup(store, SessionKey(token), now))
    ensures VerifyToken(true, store, k, users, token, now, None) == Err(InvalidOrExpired)
  {
  }
}
