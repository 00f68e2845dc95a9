/**
 * Access tokens (app/core/auth.py): `create_access_token` signs the caller's claims with an
 * `exp` claim added, `decode_access_token` checks the signature and the expiry, and
 * `get_user_from_token` maps a token to the user named by its `sub` claim.
 *
 * The JWT signature is a `Codec`: `sign` stands for `jwt.encode` under the configured secret
 * and algorithm, `verify` for `jwt.decode`, which answers None for a token it rejects. The
 * only property the code relies on is `SoundCodec`. Times are POSIX seconds.
 */
module Tokens {
  import opened Common
  import opened Users

  /** The claims this code reads or writes: `sub` (the username) and `exp` (expiry, in seconds). */
  datatype Claims = Claims(sub: Option<string>, exp: Option<int>)

  datatype Codec = Codec(sign: Claims -> string, verify: string -> Option<Claims>)

  /** A token signed with the secret decodes to the claims it was signed with. */
  ghost predicate SoundCodec(k: Codec) {
    forall c :: k.verify(k.sign(c)) == Some(c)
  }

  /** `ACCESS_TOKEN_EXPIRE_MINUTES` at its default of 60, in seconds. */
  const DefaultLifetime := 3600

  /**
   * The lifetime `create_access_token` gives a token: `expires_delta or timedelta(minutes=60)`.
   * A zero delta is falsy, so it falls back to the default like a missing one does; a
   * negative delta is truthy and is used as it is.
   */
  function Lifetime(expiresDelta: Option<int>): (s: int)
    ensures expiresDelta.Some? && expiresDelta.value != 0 ==> s == expiresDelta.value
    ensures expiresDelta.None? || expiresDelta.value == 0 ==> s == DefaultLifetime
  {
    if expiresDelta.Some? && expiresDelta.value != 0 then expiresDelta.value else DefaultLifetime
  }

  /** The claims that are signed: the caller's, with `exp` set (or replaced) by the expiry time. */
  function Stamped(data: Claims, expiresDelta: Option<int>, now: int): Claims {
    data.(exp := Some(now + Lifetime(expiresDelta)))
  }

  /** `create_access_token(data, expires_delta)` at time `now`. */
  function CreateAccessToken(k: Codec, data: Claims, expiresDelta: Option<int>, now: int): (token: string)
    ensures SoundCodec(k) ==> k.verify(token) == Some(Stamped(data, expiresDelta, now))
  {
    k.sign(Stamped(data, expiresDelta, now))
  }

  /**
   * `decode_access_token(token)` at time `now`: the payload, or None when the signature is
   * rejected or the token has expired (`exp` earlier than now, the test both `jwt.decode`
   * and line 34 make). A correctly signed payload without `exp` passes `jwt.decode`, and
   * then `datetime.fromtimestamp(None)` raises a `TypeError` that nothing catches: the
   * request ends in a 500.
   */
  function DecodeAccessToken(k: Codec, token: string, now: int): (r: Result<Option<Claims>>)
    ensures r.Err? <==> k.verify(token).Some? && k.verify(token).value.exp.None?
    ensures r.Err? ==> r.error == InternalServerError
    ensures r.Ok? && r.value.Some? <==>
              k.verify(token).Some? && k.verify(token).value.exp.Some? && now <= k.verify(token).value.exp.value
    ensures r.Ok? && r.value.Some? ==> k.verify(token) == Some(r.value.value)
  {
    match k.verify(token)
    case None => Ok(None)
    case Some(c) =>
      if c.exp.None? then Err(InternalServerError)
      else if c.exp.value < now then Ok(None)
      else Ok(Some(c))
  }

  const InvalidOrExpired := HttpError(401, "Invalid or expired token")
  const NoUsername := HttpError(401, "Token doesn't contain username")
  const UserNotFound := HttpError(401, "User not found")

  /**
   * `get_user_from_token` (and `get_current_user`, which only calls it): the first user
   * whose username is the token's `sub`.
   */
  function GetUserFromToken(k: Codec, users: seq<User>, token: string, now: int): (r: Result<User>)
    ensures r.Ok? ==> r.value in users
    ensures r.Ok? ==> exists c: Claims :: DecodeAccessToken(k, token, now) == Ok(Some(c)) && c.sub == Some(r.value.username)
    ensures r.Ok? ==> FindByUsername(users, r.value.username) == Some(r.value)
    ensures r.Err? ==> r.error in {InternalServerError, InvalidOrExpired, NoUsername, UserNotFound}
    ensures r == Err(InvalidOrExpired) <==> DecodeAccessToken(k, token, now) == Ok(None)
    ensures r == Err(InternalServerError) <==> DecodeAccessToken(k, token, now).Err?
    ensures var d := DecodeAccessToken(k, token, now);
            r == Err(NoUsername) <==> d.Ok? && d.value.Some? && d.value.value.sub.None?
    ensures var d := DecodeAccessToken(k, token, now);
            d.Ok? && d.value.Some? && d.value.value.sub.Some? ==>
              var found := FindByUsername(users, d.value.value.sub.value);
              r == (if found.None? then Err(UserNotFound) else Ok(found.value))
  {
    var payload :- DecodeAccessToken(k, token, now);
    if payload.None? then Err(InvalidOrExpired)
    else if payload.value.sub.None? then Err(NoUsername)
    else
      match FindByUsername(users, payload.value.sub.value)
      case None => Err(UserNotFound)
      case Some(u) => Ok(u)
  }

  /**
   * A token made for `sub == name` is accepted exactly until its expiry second and names
   * the first user called `name`; once expired it is refused as invalid or expired.
   */
  lemma TokenRoundTrip(k: Codec, users: seq<User>, name: string, expiresDelta: Option<int>, issued: int, now: int)
    requires SoundCodec(k)
    ensures var token := CreateAccessToken(k, Claims(Some(name), None), expiresDelta, issued);
            GetUserFromToken(k, users, token, now) ==
              if now > issued + Lifetime(expiresDelta) then Err(InvalidOrExpired)
              else if FindByUsername(users, name).None? then Err(UserNotFound)
              else Ok(FindByUsername(users, name).value)
  {
    var token := CreateAccessToken(k, Claims(Some(name), None), expiresDelta, issued);
    assert k.verify(token) == Some(Claims(Some(name), Some(issued + Lifetime(expiresDelta))));
  }

  /**
   * A token whose signature the codec accepts carries only the claims it was made with:
   * two tokens made from different claims are different strings.
   */
  lemma DistinctClaimsDistinctTokens(k: Codec, c1: Claims, c2: Claims)
    requires SoundCodec(k)
    requires c1 != c2
    ensures k.sign(c1) != k.sign(c2)
  {
    assert k.verify(k.sign(c1)) == Some(c1);
    assert k.verify(k.sign(c2)) == Some(c2);
  }
}
