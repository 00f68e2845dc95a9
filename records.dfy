/**
 * The six keyed resources of app/models as data: a record is a map from column name to
 * value, and a `Resource` says which columns a table has, which one is the integer key,
 * what the router's names and defaults are, and what its bulk endpoint answers.
 */
module Records {
  import opened Common
  import opened Text
  import opened Serializer

  datatype Value = IntV(i: int) | StrV(s: string) | DateV(d: Date) | EnumV(e: EnumMember) | NullV

  type Record = map<string, Value>

  /** A column's declared type: the `Optional[int]` primary key, `int`, `str`, `Optional[str]`, `date` or an enum. */
  datatype Kind = KeyK | IntK | StrK | OptStrK | DateK | EnumK(t: EnumType)

  datatype Resource = Resource(
    plural: string,              // the router prefix without its slash, also the cache key prefix
    singular: string,            // the noun of the 404 and delete messages
    keyField: string,
    kinds: map<string, Kind>,    // every column with its declared type
    order: seq<string>,          // the columns in declaration order, which is `model_dump`'s order
    defaultLimit: int,           // the listing's default `limit`
    bulkEchoes: bool)            // the bulk endpoint answers with the stored rows instead of a message

  predicate Fits(v: Value, k: Kind) {
    match k
    case KeyK => v.IntV? || v.NullV?
    case IntK => v.IntV?
    case StrK => v.StrV?
    case OptStrK => v.StrV? || v.NullV?
    case DateK => v.DateV? && ValidDate(v.d)
    case EnumK(t) => v.EnumV? && TypeOf(v.e) == t
  }

  /** Every entry of `r` is a column of the table and holds a value of that column's type. */
  predicate Conforms(res: Resource, r: Record) {
    forall n :: n in r ==> n in res.kinds && Fits(r[n], res.kinds[n])
  }

  /** A request body the validator lets through: typed, with every column present that has no default. */
  predicate Body(res: Resource, r: Record) {
    && Conforms(res, r)
    && forall n :: n in res.kinds && res.kinds[n] !in {KeyK, OptStrK} ==> n in r
  }

  /** A stored row: exactly the table's columns, typed, and an integer key. */
  predicate Stored(res: Resource, r: Record) {
    && Conforms(res, r)
    && r.Keys == res.kinds.Keys
    && res.keyField in r && r[res.keyField].IntV?
  }

  /** A body with its defaults filled in: missing optional columns become NULL, and so does a missing key. */
  function WithDefaults(res: Resource, body: Record): (r: Record)
    ensures forall n :: n in body ==> n in r && r[n] == body[n]
    ensures forall n :: n in r && n !in body ==> r[n] == NullV
    ensures r.Keys == body.Keys + res.kinds.Keys
  {
    var missing := map n | n in res.kinds && n !in body :: NullV;
    body + missing
  }

  /**
   * What the `setattr` loop of an update leaves in a row: every column the request set
   * takes the request's value, every other column keeps its value.
   */
  function Merge<V>(row: map<string, V>, patch: map<string, V>): (r: map<string, V>)
    ensures r.Keys == row.Keys + patch.Keys
    ensures forall n :: n in patch ==> r[n] == patch[n]
    ensures forall n :: n in row && n !in patch ==> r[n] == row[n]
  {
    row + patch
  }

  /** One `setattr`: assigning one more of the request's columns extends the part of the request already applied. */
  lemma PatchStep<V>(row: map<string, V>, patch: map<string, V>, todo: set<string>, n: string)
    requires n in todo && todo <= patch.Keys
    ensures (row + (patch - todo))[n := patch[n]] == row + (patch - (todo - {n}))
  {
    var a := (row + (patch - todo))[n := patch[n]];
    var b := row + (patch - (todo - {n}));
    assert a.Keys == b.Keys;
    forall k | k in a
      ensures a[k] == b[k]
    {
    }
  }

  lemma NoneApplied<V>(patch: map<string, V>)
    ensures patch - patch.Keys == map[]
  {
  }

  lemma AllApplied<V>(patch: map<string, V>)
    ensures patch - {} == patch
  {
  }

  /** The `setattr` loop of an update: each column the request set is assigned in turn. */
  method ApplyPatch<V>(row: map<string, V>, patch: map<string, V>) returns (merged: map<string, V>)
    ensures merged == Merge(row, patch)
  {
    merged := row;
    var todo := patch.Keys;
    NoneApplied(patch);
    while todo != {}
      invariant todo <= patch.Keys
      invariant merged == row + (patch - todo)
      decreases |todo|
    {
      var n :| n in todo;
      PatchStep(row, patch, todo, n);
      merged := merged[n := patch[n]];
      todo := todo - {n};
    }
    AllApplied(patch);
  }

  /** An empty request body leaves the row as it was. */
  lemma MergeEmpty(row: Record)
    ensures Merge(row, map[]) == row
  {
  }

  /** Sending the same request twice updates the row once: merging is idempotent. */
  lemma MergeIdempotent(row: Record, patch: Record)
    ensures Merge(Merge(row, patch), patch) == Merge(row, patch)
  {
  }

  /** Two successive updates are one update with the second request's values winning. */
  lemma MergeCompose(row: Record, p1: Record, p2: Record)
    ensures Merge(Merge(row, p1), p2) == Merge(row, Merge(p1, p2))
  {
  }

  /** A typed update of a stored row gives a stored row, provided the key stays an integer. */
  lemma MergeKeepsStored(res: Resource, row: Record, patch: Record)
    requires Stored(res, row) && Conforms(res, patch)
    requires res.keyField in patch ==> patch[res.keyField].IntV?
    ensures Stored(res, Merge(row, patch))
  {
  }

  /** A validated body with its defaults is a stored row once it has an integer key. */
  lemma DefaultsMakeStored(res: Resource, body: Record, key: int)
    requires Body(res, body)
    requires res.keyField in res.kinds && res.kinds[res.keyField] == KeyK
    ensures Stored(res, WithDefaults(res, body)[res.keyField := IntV(key)])
  {
  }

  const Vehicles := Resource("vehicles", "Vehicle", "vehicle_id",
    map["model" := StrK, "prod_date" := DateK, "year" := IntK,
        "propulsion" := EnumK(PropulsionEnum), "vehicle_id" := KeyK],
    ["vehicle_id", "model", "prod_date", "year", "propulsion"],
    1000, false)

  const Parts := Resource("parts", "Part", "part_id",
    map["part_name" := StrK, "last_id_purchase" := IntK, "supplier_id" := IntK, "part_id" := KeyK],
    ["part_id", "part_name", "last_id_purchase", "supplier_id"],
    1000, false)

  const Purchases := Resource("purchases", "Purchase", "purchase_id",
    map["purchase_type" := EnumK(PurchaseTypeEnum), "purchase_date" := DateK,
        "part_id" := IntK, "purchase_id" := KeyK],
    ["purchase_id", "purchase_type", "purchase_date", "part_id"],
    10, true)

  const Locations := Resource("locations", "Location", "location_id",
    map["market" := EnumK(MarketEnum), "country" := StrK, "province" := StrK,
        "city" := StrK, "location_id" := KeyK],
    ["location_id", "market", "country", "province", "city"],
    1000, false)

  const Suppliers := Resource("suppliers", "Supplier", "supplier_id",
    map["supplier_name" := StrK, "location_id" := IntK, "supplier_id" := KeyK],
    ["supplier_id", "supplier_name", "location_id"],
    1000, false)

  const Warranties := Resource("warranties", "Warranty", "claim_key",
    map["vehicle_id" := IntK, "repair_date" := DateK, "client_complaint" := OptStrK,
        "tech_comment" := OptStrK, "part_id" := IntK, "classified_issue" := OptStrK,
        "location_id" := IntK, "purchase_id" := IntK, "claim_key" := KeyK],
    ["claim_key", "vehicle_id", "repair_date", "client_complaint", "tech_comment", "part_id",
     "classified_issue", "location_id", "purchase_id"],
    1000, false)

  /** The key column is declared as the primary key, and the plural is a non-empty word without an underscore. */
  predicate WellFormed(res: Resource) {
    && res.keyField in res.kinds && res.kinds[res.keyField] == KeyK
    && '_' !in res.plural
    && res.plural != ""
  }

  /** The six resources are well formed. */
  lemma ResourcesWellFormed()
    ensures WellFormed(Vehicles) && WellFormed(Parts) && WellFormed(Purchases)
    ensures WellFormed(Locations) && WellFormed(Suppliers) && WellFormed(Warranties)
  {
  }
}
