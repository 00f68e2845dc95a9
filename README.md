# A verified model of the teste-ford FastAPI backend

This project models, in Dafny, the logic at the core of a FastAPI CRUD backend for a
vehicle-warranty data mart. The backend serves six keyed resources (vehicles, parts,
purchases, locations, suppliers, warranties) behind a login. The model covers:

- **The authentication and session gate.** A user table, Redis-held sessions with a
  time-to-live, and signed access tokens carrying `sub` and `exp`. The operations are
  register, login, `/me`, logout, and the `verify_token` dependency that guards every resource
  router. A request passes the gate only when the token's `session_<token>` entry is in the
  cache with a non-empty value and the token still decodes to an existing user.
- **The cache wrapper** (`init_cache`, `set_cache`, `get_cache`, `delete_cache`). It is a class
  holding an initialised flag and a map from key to value and expiry second.
- **The read-through paginated listing** of each resource router. The key is
  `<plural>_skip_<skip>_limit_<limit>`. A non-empty cached value is served as it is. A miss reads
  the page and stores its JSON text for 60 seconds. No write ever invalidates the cache.
- **Keyed-record CRUD.** The services return None/False for an absent key. The routes answer
  404 "<Singular> not found". Updates assign only the columns the request set, one at a time.
  Bulk inserts commit all rows or none.
- **`default_serializer`.** Dates become their ISO 8601 text, enum members their value, and any
  other object raises TypeError.

Time is an explicit `now` argument in POSIX seconds. Redis keeps an entry while
`now <= expiresAt`. An exception the Redis client would raise is a `fault` argument holding its
message. The JWT signature is a `Codec` (`sign`, `verify`); the only property used is that a
signed token verifies to its own claims. The bcrypt context is a `Hasher` (`hash`, `verify`);
the only property used is that a password verifies against its own hash. The database is one
`Table` per resource: its rows in the order an unordered SELECT returns them, plus the primary-key
sequence.

Files, one module each: `common.dfy` (results and HTTP errors), `text.dfy` (Python's `str(int)`
and its inverse), `serializer.dfy`, `cache.dfy`, `users.dfy`, `tokens.dfy`, `auth_routes.dfy`,
`gate.dfy`, `app_setup.dfy`, `records.dfy` (the six models as data, and the update merge),
`services.dfy` and `routes.dfy`.

## Model

| member | source | states |
|---|---|---|
| Cache.GetCache | app/cache.py:34-40 | uninitialised: 500 "Cache não inicializado."; a backend fault: 500 "Cache Error: <message>"; otherwise the value while it is live, and None for a missing key and for an expired key alike |
| Cache.RedisCache.Init | app/cache.py:9-20 | builds the client only when there is none; a failed ping raises 500 "Erro ao conectar com o Redis" yet leaves the client set, so later calls succeed without retrying |
| Cache.RedisCache.Set | app/cache.py:24-30 | uninitialised or faulting: 500 and the store unchanged; otherwise the value is stored under the key with its expiry, replacing any earlier value |
| Cache.RedisCache.Delete | app/cache.py:44-50 | uninitialised or faulting: 500 and the store unchanged; otherwise the key is removed, and an absent key is not an error |
| Cache.SetThenGet | app/cache.py:24-40 | a value set with a positive expiration reads back until that many seconds have passed, and reads as missing afterwards |
| Cache.SetLeavesOtherKeys | app/cache.py:28 | setting one key leaves what every other key reads unchanged |
| Cache.SetOverwrites | app/cache.py:28 | a second SETEX under a key replaces both the first value and its expiry |
| Cache.DeleteThenGet | app/cache.py:48 | after a delete the key reads as missing, and deleting it again changes nothing |
| Tokens.Lifetime | app/core/auth.py:21-23 | the token lifetime is the given delta, except that a missing or zero delta gets the 60-minute default |
| Tokens.CreateAccessToken | app/core/auth.py:19-25 | the token verifies to the caller's claims with `exp` set to the issue time plus the lifetime |
| Tokens.DecodeAccessToken | app/core/auth.py:29-38 | a rejected signature or an `exp` strictly before now gives None; an `exp` equal to now is accepted; a signed payload without `exp` fails with 500 |
| Tokens.GetUserFromToken | app/core/auth.py:42-68 | the failures come in a fixed order: a signed payload without `exp` is the decode's 500, "Invalid or expired token" exactly when decoding gives None, then "Token doesn't contain username" exactly when the payload has no `sub`, then "User not found" when no user has that name (all 401); otherwise exactly the first user whose username is the token's `sub`; `get_current_user` is this same lookup with its arguments swapped |
| Tokens.TokenRoundTrip | app/core/auth.py:19-63 | a token issued for a username is accepted up to and including its expiry second and names the first user with that username; after expiry it is refused as invalid or expired |
| Tokens.DistinctClaimsDistinctTokens | app/core/auth.py:25 | tokens signed from different claims are different strings |
| Users.FirstIndex | app/services/user.py:7 | the index of the first row whose column equals the value; no earlier row matches; None only when no row matches |
| Users.FindByUsername | app/services/user.py:6-7 | the first user with exactly that username, and None exactly when no user has it |
| Users.FindByEmail | app/services/user.py:11-12 | the first user with exactly that email, and None exactly when no user has it |
| Users.UserStore.CreateUser | app/services/user.py:16-21 | appends a row with the username, the email and the given hash in `password`, with a fresh id from the counter, and returns it; ids stay unique |
| Users.FindByUsernameAfterAppend | app/services/user.py:6-7 | a new row never changes what a lookup of another username finds |
| Users.FindByUsernameAppended | app/services/user.py:6-7 | a new row whose username no row had is what the lookup of that username then finds |
| AuthRoutes.SessionKey | app/api/routes/auth.py:59 | the session key is `session_` followed by the token |
| AuthRoutes.SessionKeyInjective | app/api/routes/auth.py:59 | different tokens have different session keys |
| AuthRoutes.Register | app/api/routes/auth.py:25-41 | a taken username gives 400 "Username already taken" before the email is checked, then a taken email gives 400 "Email already taken", and nothing is written on either; otherwise the hash of the password is stored and the reply carries "User registered successfully" and the new id |
| AuthRoutes.Authenticate | app/api/routes/auth.py:47-48 | a user is accepted only when it is the first with that username and the password verifies against its stored hash |
| AuthRoutes.Login | app/api/routes/auth.py:45-62 | an unknown user and a wrong password give the same 401 "Invalid username or password" and write nothing; otherwise a one-hour token for the username, `session_<token>` set to the username for 3600 s, and token type "bearer"; a cache failure gives its 500 and writes nothing |
| AuthRoutes.Me | app/api/routes/auth.py:66-86 | decodes the token without looking at the cache; 401 "Invalid token" exactly when decoding gives None; 401 "User not found" when `sub` is missing or names nobody; otherwise exactly the username and email of that user |
| AuthRoutes.Logout | app/api/routes/auth.py:90-101 | fails exactly as `/me` does; otherwise deletes the token's session, present or not, and answers "Logout successful"; no other key changes, so repeating it succeeds again |
| AuthRoutes.RegisteredCanAuthenticate | app/api/routes/auth.py:36-48 | a user registered with a password is accepted at login with that same password |
| AuthRoutes.MeAfterLogin | app/api/routes/auth.py:54-86 | `/me` answers a fresh login token with the profile of the user who logged in, until the token expires |
| Gate.VerifyToken | app/main.py:48-60 | reads only; an uninitialised or failing cache gives exactly `get_cache`'s 500; an absent, expired or empty session gives 401 "Session not found or expired" before the token is decoded; with a session present, the answer is exactly the token-to-user lookup's |
| Gate.LoginOpensGate | app/main.py:50-60 | after a login, the gate lets that token through as the user who logged in from the login second until one hour later (non-empty username) |
| Gate.LoginSessionExpires | app/main.py:50-54 | an hour and a second after login, the session is gone and the gate refuses the token |
| Gate.EmptyUsernameLockedOut | app/main.py:53-54 | a user with an empty username can log in, but the stored session value is empty and falsy, so the gate refuses every request |
| Gate.LogoutClosesGate | app/main.py:50-54 | once a token's session is deleted, the gate refuses that token, however valid the token still is |
| Gate.LogoutIsPerToken | app/api/routes/auth.py:96-99 | deleting one token's session leaves the gate's answer for every other token unchanged |
| Gate.SessionWithoutValidToken | app/main.py:56 | a live session is not enough: a token the codec rejects is refused with "Invalid or expired token" |
| AppSetup.App.IncludeRouter | app/main.py:63-96 | appends one mount with its tag, prefix and whether `verify_token` guards it |
| AppSetup.App.RegisterHandler | app/main.py:100-111 | a later handler for the same exception class replaces the earlier one |
| AppSetup.BuildApp | app/main.py:63-120 | the auth router is mounted open, the six resource routers gated, all under `/api`; only the 405 handler remains registered |
| AppSetup.Handle | app/main.py:100-120 | the 405 handler answers 405 "Método <verb> não permitido na rota <path>" with the request's method and path, and passes every other status and detail through; the 404 handler answers 404 "URL not found. Please check the URL or request." for a 404 and turns anything else into a 500 "Internal Server Error" |
| AppSetup.OnlyMethodNotAllowedIsRewritten | app/main.py:100-120 | with the handlers the application ends up with, every status but 405 reaches the client with its own detail, so the custom 404 text never appears unless it was the detail already |
| AppSetup.OnlyAuthIsOpen | app/main.py:63-96 | every mount is under `/api`, and a mount is gated exactly when it is not the auth router |
| Serializer.DefaultSerializer | app/utils/serializer.py:6-16 | a date becomes ISO 8601 text that parses back to it; a datetime's text starts with its date's text and a `T`; an enum member becomes its value, which names that member; any other type raises TypeError "Type <type> not serializable" |
| Serializer.DateIsoRoundTrip | app/utils/serializer.py:8-9 | parsing the ISO text of a valid date gives the date back |
| Serializer.ParseDateIsoExact | app/utils/serializer.py:8-9 | any text the ISO parser accepts is exactly the ISO text of the date it yields |
| Serializer.DateIsoInjective | app/utils/serializer.py:8-9 | different dates have different ISO texts |
| Serializer.DateTimeIsoStartsWithDate | app/utils/serializer.py:8-9 | a datetime's ISO text is its date's ISO text, a `T`, and the time |
| Serializer.EnumFromValue | app/models/vehicle.py:8-12 | the member of an enum with a given value, when there is one |
| Serializer.EnumValueRoundTrip | app/utils/serializer.py:12-13 | an enum member's value leads back to that member |
| Text.IntToString | app/api/routes/vehicle.py:114 | Python's decimal text of an integer: non-empty, without `_` or spaces, a leading `-` exactly for negatives |
| Text.IntToStringRoundTrip | app/api/routes/vehicle.py:114 | the decimal text of an integer parses back to it |
| Text.IntToStringInjective | app/api/routes/vehicle.py:114 | different integers have different decimal texts |
| Text.SplitAtSeparator | app/api/routes/vehicle.py:114 | two texts joined at a separator that neither prefix holds split back uniquely |
| Records.WithDefaults | app/models/warranties.py:7-13 | every column the body left out is NULL, and every column it set keeps its value |
| Records.Merge | app/services/vehicle.py:38-40 | the columns the request set take its values; every other column keeps its value |
| Records.ApplyPatch | app/services/vehicle.py:39-40 | assigning the request's columns one at a time gives exactly the merged row |
| Records.MergeEmpty | app/services/vehicle.py:38-40 | an empty request body leaves the row as it was |
| Records.MergeIdempotent | app/services/vehicle.py:38-40 | repeating the same update changes nothing more |
| Records.MergeCompose | app/services/vehicle.py:38-40 | two updates are one update in which the second request's values win |
| Records.MergeKeepsStored | app/services/vehicle.py:38-42 | a typed update of a stored row is a stored row, provided the key stays an integer |
| Records.DefaultsMakeStored | app/services/vehicle.py:18-22 | a validated body with its defaults filled in and a key is a stored row |
| Records.ResourcesWellFormed | app/models/vehicle.py:16-21 | each of the six models has its declared primary key, and each router prefix is a word without `_` |
| Services.FindRow | app/services/vehicle.py:27 | the position of the row with that key, or None exactly when no row has it |
| Services.RowFor | app/services/vehicle.py:18-22 | the stored row keeps every column of the body and has the body's own key, or the next sequence value when it has none |
| Services.InsertAll | app/services/vehicle.py:7-9 | succeeds exactly when every body's key (its own, or the running sequence value) is unused by the table and by the other bodies; then the table is the old rows followed by each body's stored row in order, and the sequence has advanced once per body without a key |
| Services.BulkRowsStored | app/services/vehicle.py:7-9 | every row a bulk insert stores is a stored row whose key is its body's own key or the running sequence value |
| Services.BulkRowsKeepColumns | app/services/vehicle.py:7-9 | each row a bulk insert stores keeps every column its body set, except the key |
| Services.BulkKeepsKeys | app/services/vehicle.py:7-9 | a bulk insert whose keys are fresh leaves every row stored with unique keys |
| Services.Table.Get | app/services/vehicle.py:26-27 | the row with that key, or None exactly when no row has it |
| Services.Table.Create | app/services/vehicle.py:18-22 | a key already in use fails the commit with 500 and changes nothing; otherwise exactly one row is appended and returned, and reading its key gives it back; the create routes (app/api/routes/vehicle.py:102-107 and its siblings) do the same |
| Services.Table.CreateAll | app/services/vehicle.py:7-9 | a key in use or repeated among the bodies gives 500 and changes nothing; otherwise the rows of all bodies are appended in one commit and returned, and the sequence advances as `InsertAll` says |
| Services.Table.Update | app/services/vehicle.py:31-44 | None and nothing changed for an absent key; otherwise only the columns the request set change, and reading the row's key gives the merged row; a NULL or clashing new key fails the commit and changes nothing |
| Services.Table.Delete | app/services/vehicle.py:48-54 | False and nothing changed for an absent key; otherwise True, that row alone is removed, and the key is then unused |
| Services.Chunk | app/services/vehicle.py:13-14 | at most `chunk_size` rows, a prefix of the table with no offset |
| Services.Page | app/api/routes/vehicle.py:125 | a negative `skip` or `limit` is a 500; otherwise the rows from position `skip` on, in order: `min(limit, rows left)` of them, none when `skip` is past the end |
| Services.FirstPageIsChunk | app/services/vehicle.py:13-14 | the chunk of the services is the listing page at offset 0 |
| Services.PagesTile | app/api/routes/vehicle.py:125 | consecutive pages tile the table: a page of `a + b` rows is the page of `a` followed by the next page of `b` |
| Routes.ReadOne | app/api/routes/vehicle.py:137-142 | 404 "<Singular> not found" exactly when no row has the key; otherwise that row |
| Routes.UpdateOne | app/api/routes/supplier.py:155-170 | 404 and nothing changed for an absent key; for a present key the commit fails with 500, changing nothing, exactly when the request sets the key to NULL or to another row's key; otherwise the row is replaced by its merge with the request, and reading its key gives it back |
| Routes.DeleteOne | app/api/routes/supplier.py:174-182 | 404 and nothing changed exactly when the key is absent; otherwise the row is removed and "<Singular> deleted successfully" answered; afterwards the key reads as 404 |
| Routes.CreateMany | app/api/routes/purchases.py:80-84 | 500 and nothing stored exactly when some key is in use or repeats; otherwise the table gains the bodies' rows in order, and purchases answer with those rows, the other routers with "Bulk <plural> created successfully" |
| Routes.ListingKey | app/api/routes/vehicle.py:114 | the key starts with the plural and an underscore |
| Routes.ListingKeyInjective | app/api/routes/supplier.py:124 | different resources, offsets or limits never share a listing key |
| Routes.ListingKeyIsNotSessionKey | app/api/routes/location.py:109 | no listing key is a session key |
| Routes.DefaultFirstPages | app/api/routes/purchases.py:98-100 | the first page at the default limit is "purchases_skip_0_limit_10" for purchases and "suppliers_skip_0_limit_1000" for suppliers |
| Routes.EncodeValue | app/api/routes/vehicle.py:128-130 | the JSON text of a column value parses back to it: integers in decimal, strings quoted, NULL as `null`, dates as quoted ISO text, enum members as their quoted value |
| Routes.Serialize | app/api/routes/parts.py:119-121 | the stored listing text is a JSON array, never empty, and `[]` exactly for an empty page |
| Routes.EncodePage | app/api/routes/warranties.py:131-138 | with the row class as custom encoder, encoding fails with TypeError naming `FactWarranties` exactly when the page is non-empty |
| Routes.ListingOutcome | app/api/routes/vehicle.py:111-133 | a failing GET is its 500; a non-empty live value is served as it is and writes nothing; otherwise a negative `skip` or `limit` is a 500, an encoding TypeError is a 500, a failing SETEX is its 500, and else the page is answered and its text stored under the key for 60 s; every failure writes nothing |
| Routes.List | app/api/routes/supplier.py:119-143 | the handler's answer and the cache's new state are those of the listing specification for the router's encoder (`ModelDump` for five routers, `RowClassEncoder` for warranties as written); it modifies the cache only, never the table |
| Routes.ListingServedUntilExpiry | app/api/routes/location.py:104-128 | after a miss, the same request is served the stored text for 60 s, however the rows change in between, so writes are not seen until expiry |
| Routes.ListingRefreshedAfterExpiry | app/api/routes/parts.py:102-124 | once the 60 s are over, the same request misses again and answers the rows as they are then |
| Routes.ListingKeepsSessions | app/api/routes/vehicle.py:114-131 | a listing never changes what any session key reads |
| Routes.WarrantiesListingFailsAsWritten | app/api/routes/warranties.py:128-141 | as written, a warranties miss on a non-empty page fails with 500 and caches nothing |
| Routes.WarrantiesListingCorrected | app/api/routes/warranties.py:128-141 | with the encoding of the other five routers, the same miss answers the page and caches its text for 60 s |
| Routes.YearKey | app/api/routes/warranties.py:91 | the key is "Year " followed by the year's decimal text, which parses back to the year |
| Routes.MonthKey | app/api/routes/vehicle.py:90 | the key is "Month " followed by the month's decimal text, which parses back to the month |
| Routes.SupplierKey | app/api/routes/parts.py:53 | the key is the supplier id's decimal text, which parses back to the id |
| Routes.CountKeysDistinct | app/api/routes/purchases.py:55-66 | distinct years, months or suppliers get distinct keys, and a year key is never a month key |
| Routes.Counts | app/api/routes/parts.py:63 | the response has an entry for every group and no other |
| Routes.CountsKeepEveryGroup | app/api/routes/parts.py:53 | when the groups' keys are distinct, every group's count is in the response under its own key |
| Routes.YearCountsKeepEveryYear | app/api/routes/warranties.py:91 | per-year counts over distinct years keep every year's count under its "Year" key |

## Left out

- JWT cryptography (HS256, the secret, python-jose) is the abstract `Codec`. Two tokens signed from equal claims in the same second are equal strings, as with the real library.
- bcrypt (salts, cost factor) is the abstract `Hasher`.
- `ACCESS_TOKEN_EXPIRE_MINUTES` and the JWT secret are read from the environment. The lifetime is fixed at its default of 60 minutes.
- The OAuth2 bearer-header extraction is left out: a request without an `Authorization` header is refused by FastAPI before any modelled code runs.
- pydantic validation is left out: 422 answers, `EmailStr`, and `max_length` (which these models do not enforce either). Request bodies are assumed typed (`Records.Body`, `Records.Conforms`).
- Foreign keys are not modelled. The tables are created with foreign-key constraints (app/core/database.py:10 and the `foreign_key` fields of the models), so the database refuses a create or update naming a missing vehicle, part, location or purchase, and a delete of a row another row refers to, and the request ends in a 500. The model lets all of these succeed.
- Services.Chunk, Services.Page: the database engine is assumed to be PostgreSQL, which rejects a negative LIMIT or OFFSET with an error (a 500). The engine comes from `DATABASE_URL` (app/core/database.py:5); on SQLite a negative LIMIT means no limit and a negative OFFSET counts as 0, so the request would succeed.
- A failed insert consumes primary-key sequence values in PostgreSQL. The model leaves the sequence unchanged on failure.
- Row order: the rows are one fixed sequence. An unordered SELECT may return them in a different order after an update.
- The filter and aggregation endpoints (`by-*`, `count-*`, `unique-*`, `top-locations`) evaluate SQL in the database. Only their response-key formats are modelled.
- JSON escaping inside strings is not modelled (`Routes.Quote`): neither the escaping of quotes and control characters nor `json.dumps`'s default `ensure_ascii`, which writes every non-ASCII character (such as the accented letters of Portuguese text) as `\uXXXX`. Parsing cached text back with `json.loads` is not modelled either: a hit answers the stored text.
- The 404 handler that is registered and then replaced is still modelled (`AppSetup.Handle`), but no request reaches it.
- A real Redis connection, `ping`, network errors and the clock are left out. They are the `fault` and `now` arguments.
- Concurrency: each request is one sequential operation.
- CORS, the lifespan hook and its printing, and database session plumbing are left out.
- `populate_db.py` generates random data and is left out.
- app/core/security.py, app/core/database.py, app/core/config and the request schemas are not part of this model.
- Gate.VerifyToken: its "Not authenticated" branch is not modelled, because the lookup it guards returns a user or raises, never a falsy value.
- AuthRoutes.Me: `get_user_by_username(None)` is modelled as finding nobody. SQLAlchemy renders `username == None` as `IS NULL`, and no stored user has a NULL username, so no row matches.
- Time is whole POSIX seconds. `decode_access_token` compares the expiry with `datetime.now()` at microsecond precision, so within the expiry second the source may already refuse a token the model still accepts.

## Findings

| source | as written | input that shows it | evidently intended | confidence | as-written member | corrected member |
|---|---|---|---|---|---|---|
| app/api/routes/warranties.py:131-138 | the page is encoded with `jsonable_encoder(warranty, custom_encoder={FactWarranties: default_serializer})`, which hands the row object itself to `default_serializer`; that function accepts only dates and enum members, so it raises TypeError "Type <class 'app.models.warranties.FactWarranties'> not serializable" | GET /api/warranties on a cache miss with at least one warranty row in the page: the request fails with 500 and nothing is cached, so every later request fails the same way | encode each row as the other five routers do (`model_dump()` with `json.dumps(..., default=default_serializer)`), answer the page and cache its text for 60 s | high (not executed) | Routes.WarrantiesListingFailsAsWritten (over Routes.EncodePage with the row-class encoder) | Routes.WarrantiesListingCorrected (over Routes.Serialize through the `ModelDump` encoder, which the listing lemmas use) |
