/**
 * The six resource routers of app/api/routes (vehicle.py, parts.py, purchases.py,
 * location.py, supplier.py, warranties.py), which differ in the resource they serve and, for
 * warranties, in how the listing encodes its page (`Encoder`):
 * the by-key handlers that answer 404 for a key no row has, the create and bulk handlers,
 * the paginated listing behind a read-through Redis cache, and the text keys of the count
 * endpoints. No handler that writes rows touches the cache: none of them names the cache in
 * its `modifies` clause.
 */
module Routes {
  import opened Common
  import opened Text
  import opened Serializer
  import opened Records
  import opened Services
  import opened Cache
  import opened AuthRoutes

  function NotFound(res: Resource): HttpError {
    HttpError(404, res.singular + " not found")
  }

  /** GET /X/{key}: the row with that key, or 404 "<Singular> not found". */
  function ReadOne(t: Table, key: int): (r: Result<Record>)
    reads t
    requires t.Valid()
    ensures r.Err? <==> !KeyInUse(t.res, t.rows, key)
    ensures r.Err? ==> r.error == NotFound(t.res)
    ensures r.Ok? ==> r.value in t.rows && KeyOf(t.res, r.value) == key
  {
    match t.Get(key)
    case None => Err(NotFound(t.res))
    case Some(row) => Ok(row)
  }

  /**
   * PUT /X/{key}: 404 for a key no row has; otherwise the columns the body set are assigned
   * in turn and the row is committed, after which reading the row's key gives it back.
   */
  method UpdateOne(t: Table, key: int, patch: Record) returns (r: Result<Record>)
    requires t.Valid() && Conforms(t.res, patch)
    modifies t`rows
    ensures t.Valid()
    ensures !KeyInUse(t.res, old(t.rows), key) ==> r == Err(NotFound(t.res))
    ensures r.Err? ==> t.rows == old(t.rows) && r.error in {NotFound(t.res), IntegrityError}
    ensures KeyInUse(t.res, old(t.rows), key) ==>
              (r.Err? <==> t.res.keyField in patch &&
                           (patch[t.res.keyField].NullV? ||
                            (patch[t.res.keyField].IntV? && patch[t.res.keyField].i != key
                             && KeyInUse(t.res, old(t.rows), patch[t.res.keyField].i))))
    ensures r.Err? && KeyInUse(t.res, old(t.rows), key) ==> r.error == IntegrityError
    ensures r.Ok? ==> exists i :: 0 <= i < |old(t.rows)| && KeyOf(t.res, old(t.rows)[i]) == key
                                  && r.value == Merge(old(t.rows)[i], patch)
                                  && t.rows == old(t.rows)[i := r.value]
    ensures r.Ok? ==> Stored(t.res, r.value) && ReadOne(t, KeyOf(t.res, r.value)) == Ok(r.value)
  {
    var updated := t.Update(key, patch);
    if updated.Err? {
      return Err(updated.error);
    }
    if updated.value.None? {
      return Err(NotFound(t.res));
    }
    return Ok(updated.value.value);
  }

  /** DELETE /X/{key}: 404 and nothing changed for a key no row has; otherwise the row is gone. */
  method DeleteOne(t: Table, key: int) returns (r: Result<string>)
    requires t.Valid()
    modifies t`rows
    ensures t.Valid()
    ensures r.Err? <==> !KeyInUse(t.res, old(t.rows), key)
    ensures r.Err? ==> r.error == NotFound(t.res) && t.rows == old(t.rows)
    ensures r.Ok? ==> r.value == t.res.singular + " deleted successfully"
    ensures r.Ok? ==> exists i :: 0 <= i < |old(t.rows)| && KeyOf(t.res, old(t.rows)[i]) == key
                                  && t.rows == old(t.rows)[..i] + old(t.rows)[i + 1..]
    ensures ReadOne(t, key) == Err(NotFound(t.res))
  {
    var deleted := t.Delete(key);
    if !deleted {
      return Err(NotFound(t.res));
    }
    return Ok(t.res.singular + " deleted successfully");
  }

  /** What the bulk endpoint answers: a message, or (purchases) the stored rows. */
  datatype BulkReply = Message(message: string) | Echo(rows: seq<Record>)

  /** POST /X/bulk: every body stored in one commit, or none when a key would repeat. */
  method CreateMany(t: Table, bodies: seq<Record>) returns (r: Result<BulkReply>)
    requires t.Valid()
    requires forall i :: 0 <= i < |bodies| ==> Body(t.res, bodies[i])
    modifies t
    ensures t.Valid()
    ensures r.Err? <==> !FreshKeys(t.res, old(t.rows), BulkKeys(t.res, bodies, old(t.nextKey)))
    ensures r.Err? ==> r.error == IntegrityError && t.rows == old(t.rows) && t.nextKey == old(t.nextKey)
    ensures r.Ok? ==> && t.rows == old(t.rows) + BulkRows(t.res, bodies, old(t.nextKey))
                      && (t.res.bulkEchoes ==> r.value == Echo(t.rows[|old(t.rows)|..]))
                      && (!t.res.bulkEchoes ==> r.value == Message("Bulk " + t.res.plural + " created successfully"))
  {
    var created := t.CreateAll(bodies);
    if created.Err? {
      return Err(created.error);
    }
    assert t.rows[|old(t.rows)|..] == created.value;
    if t.res.bulkEchoes {
      return Ok(Echo(created.value));
    }
    return Ok(Message("Bulk " + t.res.plural + " created successfully"));
  }

  // ---------------------------------------------------------------------------------------
  // The listing cache key

  /** The cache key of the listing page `skip`/`limit` of a resource. */
  function ListingKey(plural: string, skip: int, limit: int): (key: string)
    ensures |key| > |plural| && key[..|plural|] == plural && key[|plural|] == '_'
  {
    plural + "_skip_" + IntToString(skip) + "_limit_" + IntToString(limit)
  }

  /** `a + sep + x == b + sep + y` splits at the first separator when neither prefix holds one. */
  lemma SeparatedPrefix(a: string, x: string, b: string, y: string, sep: char)
    requires sep !in a && sep !in b
    ensures a + [sep] + x == b + [sep] + y ==> a == b && x == y
  {
    if a + [sep] + x == b + [sep] + y {
      SplitAtSeparator(a, x, b, y, sep);
    }
  }

  /**
   * Different resources or different `skip`/`limit` never share a listing key, so one page
   * is never served for another.
   */
  lemma ListingKeyInjective(p1: string, s1: int, l1: int, p2: string, s2: int, l2: int)
    requires '_' !in p1 && '_' !in p2
    requires ListingKey(p1, s1, l1) == ListingKey(p2, s2, l2)
    ensures p1 == p2 && s1 == s2 && l1 == l2
  {
    var x1 := PageSuffix(IntToString(s1), IntToString(l1));
    var x2 := PageSuffix(IntToString(s2), IntToString(l2));
    ListingKeySplits(p1, s1, l1);
    ListingKeySplits(p2, s2, l2);
    SplitAtSeparator(p1, x1, p2, x2, '_');
    PageSuffixInjective(IntToString(s1), IntToString(l1), IntToString(s2), IntToString(l2));
    IntToStringInjective(s1, s2);
    IntToStringInjective(l1, l2);
  }

  /** The part of a listing key after the plural and its underscore. */
  function PageSuffix(skipText: string, limitText: string): string {
    "skip_" + skipText + "_limit_" + limitText
  }

  lemma ListingKeySplits(plural: string, skip: int, limit: int)
    ensures ListingKey(plural, skip, limit) == plural + "_" + PageSuffix(IntToString(skip), IntToString(limit))
  {
  }

  lemma PageSuffixInjective(a1: string, b1: string, a2: string, b2: string)
    requires '_' !in a1 && '_' !in a2
    requires PageSuffix(a1, b1) == PageSuffix(a2, b2)
    ensures a1 == a2 && b1 == b2
  {
    assert PageSuffix(a1, b1)[5..] == a1 + "_" + ("limit_" + b1);
    assert PageSuffix(a2, b2)[5..] == a2 + "_" + ("limit_" + b2);
    SplitAtSeparator(a1, "limit_" + b1, a2, "limit_" + b2, '_');
    assert b1 == ("limit_" + b1)[6..] && b2 == ("limit_" + b2)[6..];
  }

  /** The key of the first page at the default `limit`: 1000 rows, except 10 for purchases. */
  lemma DefaultFirstPages()
    ensures ListingKey(Purchases.plural, 0, Purchases.defaultLimit) == "purchases_skip_0_limit_10"
    ensures ListingKey(Suppliers.plural, 0, Suppliers.defaultLimit) == "suppliers_skip_0_limit_1000"
  {
    PurchasesFirstPage();
    SuppliersFirstPage();
  }

  lemma PurchasesFirstPage()
    ensures ListingKey(Purchases.plural, 0, Purchases.defaultLimit) == "purchases_skip_0_limit_10"
  {
    assert Purchases.plural == "purchases" && Purchases.defaultLimit == 10;
    assert NatToString(10) == "10";
    FirstPageKey("purchases", 10, "10");
  }

  lemma SuppliersFirstPage()
    ensures ListingKey(Suppliers.plural, 0, Suppliers.defaultLimit) == "suppliers_skip_0_limit_1000"
  {
    assert Suppliers.plural == "suppliers" && Suppliers.defaultLimit == 1000;
    assert NatToString(100) == "100";
    assert NatToString(1000) == "1000";
    FirstPageKey("suppliers", 1000, "1000");
  }

  lemma FirstPageKey(plural: string, limit: nat, limitText: string)
    requires limitText == NatToString(limit)
    ensures ListingKey(plural, 0, limit) == plural + "_skip_0_limit_" + limitText
  {
    assert IntToString(0) == "0";
  }

  /** A listing key is never a token's session key, so listings and sessions share Redis without interfering. */
  lemma ListingKeyIsNotSessionKey(plural: string, skip: int, limit: int, token: string)
    requires '_' !in plural && plural != "session"
    ensures ListingKey(plural, skip, limit) != SessionKey(token)
  {
    ListingKeySplits(plural, skip, limit);
    assert SessionKey(token) == "session" + "_" + token;
    SeparatedPrefix(plural, PageSuffix(IntToString(skip), IntToString(limit)), "session", token, '_');
  }

  // ---------------------------------------------------------------------------------------
  // The text stored for a listing page

  /** `"` + text + `"`; the escaping of quotes and control characters is not modelled. */
  function Quote(text: string): (s: string)
    ensures |s| == |text| + 2 && s[0] == '"' && s[|s| - 1] == '"' && s[1..|s| - 1] == text
  {
    "\"" + text + "\""
  }

  /**
   * One column value as `json.dumps` writes it: integers in decimal, strings quoted, NULL as
   * `null`, a date through `default_serializer` (its ISO text, quoted), and an enum member,
   * which is a `str`, as its quoted value.
   */
  function EncodeValue(v: Value): (s: string)
    requires v.DateV? ==> ValidDate(v.d)
    ensures |s| > 0
    ensures v.IntV? ==> IsIntText(s) && ParseInt(s) == v.i
    ensures v.NullV? ==> s == "null"
    ensures v.StrV? ==> s == Quote(v.s)
    ensures v.DateV? ==> |s| >= 2 && ParseDateIso(s[1..|s| - 1]) == Some(v.d)
    ensures v.EnumV? ==> |s| >= 2 && EnumFromValue(TypeOf(v.e), s[1..|s| - 1]) == Some(v.e)
  {
    match v
    case IntV(i) =>
      IntToStringRoundTrip(i);
      IntToString(i)
    case StrV(text) => Quote(text)
    case DateV(d) => Quote(DefaultSerializer(DateObj(d)).text)
    case EnumV(e) =>
      EnumValueRoundTrip(e);
      Quote(EnumValue(e))
    case NullV => "null"
  }

  /** Every date a record holds is a valid calendar date. */
  predicate DatesValid(r: Record) {
    forall n :: n in r && r[n].DateV? ==> ValidDate(r[n].d)
  }

  lemma StoredDatesValid(res: Resource, r: Record)
    requires Stored(res, r)
    ensures DatesValid(r)
  {
    forall n | n in r && r[n].DateV?
      ensures ValidDate(r[n].d)
    {
      assert Fits(r[n], res.kinds[n]);
    }
  }

  /** The `"name": value` pairs of a row's `model_dump()`, in declaration order. */
  function EncodeFields(r: Record, names: seq<string>): (s: string)
    requires DatesValid(r)
    ensures names == [] <==> s == ""
    decreases |names|
  {
    if names == [] then ""
    else
      var v := if names[0] in r then EncodeValue(r[names[0]]) else "null";
      var field := Quote(names[0]) + ": " + v;
      if |names| == 1 then field else field + ", " + EncodeFields(r, names[1..])
  }

  /** The objects of a page, separated by commas. */
  function EncodeRows(res: Resource, page: seq<Record>): (s: string)
    requires forall i :: 0 <= i < |page| ==> Stored(res, page[i])
    ensures page == [] <==> s == ""
    decreases |page|
  {
    if page == [] then ""
    else
      StoredDatesValid(res, page[0]);
      var obj := "{" + EncodeFields(page[0], res.order) + "}";
      if |page| == 1 then obj else obj + ", " + EncodeRows(res, page[1..])
  }

  /**
   * The JSON array text of a page, as stored in the cache. It is never empty, not even for an
   * empty page, so a stored listing is always a hit.
   */
  function Serialize(res: Resource, page: seq<Record>): (s: string)
    requires forall i :: 0 <= i < |page| ==> Stored(res, page[i])
    ensures |s| >= 2 && s[0] == '[' && s[|s| - 1] == ']'
    ensures s == "[]" <==> page == []
  {
    var body := EncodeRows(res, page);
    assert body == ("[" + body + "]")[1..|body| + 1];
    "[" + body + "]"
  }

  // ---------------------------------------------------------------------------------------
  // The read-through listing

  /** The listing page TTL, in seconds. */
  const ListingLifetime := 60

  /** What a listing answers: the cached text, parsed by the client, or the rows just queried. */
  datatype Listing = Cached(text: string) | Fresh(rows: seq<Record>)

  /**
   * How a page is turned into text for the cache: `model_dump()` and `json.dumps` with
   * `default_serializer` (five routers), or `jsonable_encoder` with `default_serializer` as the
   * custom encoder of the row class itself (the warranties router as written).
   */
  datatype Encoder = ModelDump | RowClassEncoder

  /** The `repr` of the warranties row class, which the TypeError names. */
  const FactWarrantiesClass := "<class 'app.models.warranties.FactWarranties'>"

  /**
   * Encoding a page. With the row class registered as a custom encoder, `jsonable_encoder`
   * hands each row object straight to `default_serializer`, which accepts only dates and
   * enum members: any non-empty page raises TypeError.
   */
  function EncodePage(res: Resource, page: seq<Record>, enc: Encoder): (r: Encoded)
    requires forall i :: 0 <= i < |page| ==> Stored(res, page[i])
    ensures enc == ModelDump ==> r.Encoded? && r.text == Serialize(res, page)
    ensures enc == RowClassEncoder ==> (r.TypeError? <==> page != [])
    ensures enc == RowClassEncoder && page != [] ==> r.message == NotSerializable(FactWarrantiesClass)
  {
    match enc
    case ModelDump => Encoded(Serialize(res, page))
    case RowClassEncoder =>
      if page == [] then Encoded("[]") else DefaultSerializer(OtherObj(FactWarrantiesClass))
  }

  /** `if cached_data:` — a value is served only when it is present and not the empty string. */
  predicate Hit(store: map<string, Entry>, key: string, now: int) {
    var cached := Lookup(store, key, now);
    cached.Some? && cached.value != ""
  }

  /**
   * GET /X?skip=&limit= over the cache's state and the table's rows: the answer and the
   * cache's new state. A hit serves the cached text without reading the rows; a miss reads
   * the page, stores its text for 60 seconds and answers the rows. A fault of the GET or the
   * SETEX, a negative `skip` or `limit`, or a TypeError while encoding ends in a 500.
   */
  function ListingOutcome(res: Resource, rows: seq<Record>, initialised: bool, store: map<string, Entry>,
                          skip: int, limit: int, now: int, getFault: Option<string>, setFault: Option<string>,
                          enc: Encoder): (r: (Result<Listing>, map<string, Entry>))
    requires forall i :: 0 <= i < |rows| ==> Stored(res, rows[i])
    ensures r.0.Err? ==> r.1 == store && r.0.error.status == 500
    ensures r.0.Ok? ==> initialised && getFault.None?
    ensures !initialised || getFault.Some? ==>
              r.0 == Err(GetCache(initialised, store, ListingKey(res.plural, skip, limit), now, getFault).error)
    ensures initialised && getFault.None? && Hit(store, ListingKey(res.plural, skip, limit), now) ==>
              r == (Ok(Cached(Lookup(store, ListingKey(res.plural, skip, limit), now).value)), store)
    ensures initialised && getFault.None? && !Hit(store, ListingKey(res.plural, skip, limit), now) ==>
              match Page(rows, skip, limit)
              case Err(e) => r.0 == Err(e)
              case Ok(page) =>
                && (forall i :: 0 <= i < |page| ==> Stored(res, page[i]))
                && match EncodePage(res, page, enc)
                   case TypeError(_) => r.0 == Err(InternalServerError)
                   case Encoded(text) =>
                     r == if setFault.Some? then (Err(CacheError(setFault.value)), store)
                          else (Ok(Fresh(page)), Put(store, ListingKey(res.plural, skip, limit), text, ListingLifetime, now))
    ensures r.0.Ok? && r.0.value.Cached? ==>
              && Hit(store, ListingKey(res.plural, skip, limit), now)
              && Lookup(store, ListingKey(res.plural, skip, limit), now) == Some(r.0.value.text)
              && r.1 == store
    ensures r.0.Ok? && r.0.value.Fresh? ==>
              && !Hit(store, ListingKey(res.plural, skip, limit), now)
              && Page(rows, skip, limit) == Ok(r.0.value.rows)
              && EncodePage(res, r.0.value.rows, enc).Encoded?
              && r.1 == Put(store, ListingKey(res.plural, skip, limit),
                            EncodePage(res, r.0.value.rows, enc).text, ListingLifetime, now)
  {
    var key := ListingKey(res.plural, skip, limit);
    match GetCache(initialised, store, key, now, getFault)
    case Err(e) => (Err(e), store)
    case Ok(cached) =>
      if cached.Some? && cached.value != "" then (Ok(Cached(cached.value)), store)
      else
        match Page(rows, skip, limit)
        case Err(e) => (Err(e), store)
        case Ok(page) =>
          assert forall i :: 0 <= i < |page| ==> page[i] == rows[skip + i];
          match EncodePage(res, page, enc)
          case TypeError(_) => (Err(InternalServerError), store)
          case Encoded(text) =>
            if setFault.Some? then (Err(CacheError(setFault.value)), store)
            else (Ok(Fresh(page)), Put(store, key, text, ListingLifetime, now))
  }

  /**
   * The listing handler: reads the cache, and on a miss the table, and writes only the cache.
   * Five routers encode with `ModelDump`; the warranties router as written encodes with
   * `RowClassEncoder`.
   */
  method List(t: Table, cache: RedisCache, skip: int, limit: int, now: int,
              getFault: Option<string>, setFault: Option<string>, enc: Encoder) returns (r: Result<Listing>)
    requires t.Valid()
    modifies cache`store
    ensures (r, cache.store)
            == ListingOutcome(t.res, t.rows, cache.initialised, old(cache.store), skip, limit, now, getFault, setFault, enc)
  {
    var key := ListingKey(t.res.plural, skip, limit);
    var cached := cache.Get(key, now, getFault);
    if cached.Err? {
      return Err(cached.error);
    }
    if cached.value.Some? && cached.value.value != "" {
      return Ok(Cached(cached.value.value));
    }
    var page := Page(t.rows, skip, limit);
    if page.Err? {
      return Err(page.error);
    }
    assert forall i :: 0 <= i < |page.value| ==> page.value[i] == t.rows[skip + i];
    var encoded := EncodePage(t.res, page.value, enc);
    if encoded.TypeError? {
      return Err(InternalServerError);
    }
    var stored := cache.Set(key, encoded.text, ListingLifetime, now, setFault);
    if stored.Err? {
      return Err(stored.error);
    }
    return Ok(Fresh(page.value));
  }

  /**
   * A miss stores the page it answers; for the next 60 seconds the same request is served
   * that stored text, whatever the rows have become in the meantime: a create, update or
   * delete in between is not seen until the entry expires.
   */
  lemma ListingServedUntilExpiry(res: Resource, rows: seq<Record>, later: seq<Record>, store: map<string, Entry>,
                                 skip: nat, limit: nat, t0: int, t1: int)
    requires forall i :: 0 <= i < |rows| ==> Stored(res, rows[i])
    requires forall i :: 0 <= i < |later| ==> Stored(res, later[i])
    requires !Hit(store, ListingKey(res.plural, skip, limit), t0)
    requires t0 <= t1 <= t0 + ListingLifetime
    ensures var first := ListingOutcome(res, rows, true, store, skip, limit, t0, None, None, ModelDump);
            && first.0 == Ok(Fresh(Page(rows, skip, limit).value))
            && ListingOutcome(res, later, true, first.1, skip, limit, t1, None, None, ModelDump)
               == (Ok(Cached(Serialize(res, Page(rows, skip, limit).value))), first.1)
  {
    var page := Page(rows, skip, limit).value;
    assert forall i :: 0 <= i < |page| ==> page[i] == rows[skip + i];
  }

  /** Once the 60 seconds are over, the same request misses again and answers the rows as they are then. */
  lemma ListingRefreshedAfterExpiry(res: Resource, rows: seq<Record>, later: seq<Record>, store: map<string, Entry>,
                                    skip: nat, limit: nat, t0: int, t1: int)
    requires forall i :: 0 <= i < |rows| ==> Stored(res, rows[i])
    requires forall i :: 0 <= i < |later| ==> Stored(res, later[i])
    requires !Hit(store, ListingKey(res.plural, skip, limit), t0)
    requires t1 > t0 + ListingLifetime
    ensures var first := ListingOutcome(res, rows, true, store, skip, limit, t0, None, None, ModelDump);
            ListingOutcome(res, later, true, first.1, skip, limit, t1, None, None, ModelDump).0
              == Ok(Fresh(Page(later, skip, limit).value))
  {
    var page := Page(rows, skip, limit).value;
    assert forall i :: 0 <= i < |page| ==> page[i] == rows[skip + i];
  }

  /** A listing leaves every session as it was: it writes only its own listing key. */
  lemma ListingKeepsSessions(res: Resource, rows: seq<Record>, initialised: bool, store: map<string, Entry>,
                             skip: int, limit: int, now: int, getFault: Option<string>, setFault: Option<string>,
                             token: string, later: int)
    requires forall i :: 0 <= i < |rows| ==> Stored(res, rows[i])
    requires WellFormed(res) && res.plural != "session"
    ensures var after := ListingOutcome(res, rows, initialised, store, skip, limit, now, getFault, setFault, ModelDump).1;
            Lookup(after, SessionKey(token), later) == Lookup(store, SessionKey(token), later)
  {
    ListingKeyIsNotSessionKey(res.plural, skip, limit, token);
  }

  /**
   * The warranties listing as written: on a miss with at least one row, encoding raises
   * TypeError, so the request fails with 500 and nothing is cached; every later request for
   * that page misses and fails the same way.
   */
  lemma WarrantiesListingFailsAsWritten(rows: seq<Record>, store: map<string, Entry>, skip: nat, limit: nat, now: int)
    requires forall i :: 0 <= i < |rows| ==> Stored(Warranties, rows[i])
    requires !Hit(store, ListingKey(Warranties.plural, skip, limit), now)
    requires skip < |rows| && limit > 0
    ensures ListingOutcome(Warranties, rows, true, store, skip, limit, now, None, None, RowClassEncoder)
            == (Err(InternalServerError), store)
  {
    assert Page(rows, skip, limit).value[0] == rows[skip];
  }

  /** The same request with the encoding the other five routers use answers the rows and caches them. */
  lemma WarrantiesListingCorrected(rows: seq<Record>, store: map<string, Entry>, skip: nat, limit: nat, now: int)
    requires forall i :: 0 <= i < |rows| ==> Stored(Warranties, rows[i])
    requires !Hit(store, ListingKey(Warranties.plural, skip, limit), now)
    ensures ListingOutcome(Warranties, rows, true, store, skip, limit, now, None, None, ModelDump)
            == (Ok(Fresh(Page(rows, skip, limit).value)),
                Put(store, ListingKey(Warranties.plural, skip, limit),
                    Serialize(Warranties, Page(rows, skip, limit).value), ListingLifetime, now))
  {
    var page := Page(rows, skip, limit).value;
    assert forall i :: 0 <= i < |page| ==> page[i] == rows[skip + i];
  }

  // ---------------------------------------------------------------------------------------
  // The keys of the count endpoints

  /** `f"Year {int(year)}"` (purchases and warranties per year). */
  function YearKey(year: int): (k: string)
    ensures |k| > 5 && k[..5] == "Year " && IsIntText(k[5..]) && ParseInt(k[5..]) == year
  {
    IntToStringRoundTrip(year);
    "Year " + IntToString(year)
  }

  /** `f"Month {int(month)}"` (vehicles per production month, purchases per month). */
  function MonthKey(month: int): (k: string)
    ensures |k| > 6 && k[..6] == "Month " && IsIntText(k[6..]) && ParseInt(k[6..]) == month
  {
    IntToStringRoundTrip(month);
    "Month " + IntToString(month)
  }

  /** `str(supplier_id)` (parts per supplier). */
  function SupplierKey(supplierId: int): (k: string)
    ensures IsIntText(k) && ParseInt(k) == supplierId
  {
    IntToStringRoundTrip(supplierId);
    IntToString(supplierId)
  }

  /** Distinct years, months and suppliers get distinct keys, and a year key is never a month key. */
  lemma CountKeysDistinct(y1: int, y2: int, m: int)
    ensures YearKey(y1) == YearKey(y2) ==> y1 == y2
    ensures MonthKey(y1) == MonthKey(y2) ==> y1 == y2
    ensures SupplierKey(y1) == SupplierKey(y2) ==> y1 == y2
    ensures YearKey(y1) != MonthKey(m)
  {
    assert YearKey(y1)[0] == 'Y' && MonthKey(m)[0] == 'M';
  }

  /**
   * `{name(r[0]): r[1] for r in results}`: one entry per group, a later group with the same
   * name replacing an earlier one.
   */
  function Counts(groups: seq<(int, int)>, name: int -> string): (m: map<string, int>)
    ensures forall i :: 0 <= i < |groups| ==> name(groups[i].0) in m
    ensures forall k :: k in m ==> exists i :: 0 <= i < |groups| && name(groups[i].0) == k
    decreases |groups|
  {
    if groups == [] then map[]
    else
      var rest := Counts(groups[..|groups| - 1], name);
      assert forall i :: 0 <= i < |groups| - 1 ==> groups[..|groups| - 1][i] == groups[i];
      rest[name(groups[|groups| - 1].0) := groups[|groups| - 1].1]
  }

  /** When the labels of the groups are distinct, every group's count is in the response under its own name. */
  lemma {:induction false} CountsKeepEveryGroup(groups: seq<(int, int)>, name: int -> string)
    requires forall i, j :: 0 <= i < j < |groups| ==> name(groups[i].0) != name(groups[j].0)
    ensures forall i :: 0 <= i < |groups| ==> Counts(groups, name)[name(groups[i].0)] == groups[i].1
    decreases |groups|
  {
    if groups != [] {
      var init := groups[..|groups| - 1];
      assert forall i :: 0 <= i < |init| ==> init[i] == groups[i];
      CountsKeepEveryGroup(init, name);
    }
  }

  /** Per-year counts over distinct years keep every year's count under its "Year" key. */
  lemma YearCountsKeepEveryYear(groups: seq<(int, int)>)
    requires forall i, j :: 0 <= i < j < |groups| ==> groups[i].0 != groups[j].0
    ensures forall i :: 0 <= i < |groups| ==> Counts(groups, YearKey)[YearKey(groups[i].0)] == groups[i].1
  {
    forall i, j | 0 <= i < j < |groups|
      ensures YearKey(groups[i].0) != YearKey(groups[j].0)
    {
      CountKeysDistinct(groups[i].0, groups[j].0, 0);
    }
    CountsKeepEveryGroup(groups, YearKey);
  }
}
