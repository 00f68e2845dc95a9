/**
 * The keyed-record services (app/services/vehicle.py and its five siblings, which differ
 * only in the model they name): one `Table` per resource, holding its rows in the order the
 * database returns them for an unordered SELECT, and the primary-key sequence that numbers
 * rows inserted without a key.
 */
module Services {
  import opened Common
  import opened Records

  /** What the database raises when a commit breaks the primary key (a duplicate or a NULL key). */
  const IntegrityError := InternalServerError

  /** The key of a stored row. */
  function KeyOf(res: Resource, r: Record): int
    requires Stored(res, r)
  {
    r[res.keyField].i
  }

  predicate UniqueKeys(res: Resource, rows: seq<Record>)
    requires forall i :: 0 <= i < |rows| ==> Stored(res, rows[i])
  {
    forall i, j :: 0 <= i < j < |rows| ==> KeyOf(res, rows[i]) != KeyOf(res, rows[j])
  }

  /** The position of the row with key `key` (`session.get(Model, key)`), searching from `from`. */
  function FindRow(res: Resource, rows: seq<Record>, key: int, from: nat): (r: Option<nat>)
    requires from <= |rows|
    requires forall i :: 0 <= i < |rows| ==> Stored(res, rows[i])
    ensures r.Some? ==> from <= r.value < |rows| && KeyOf(res, rows[r.value]) == key
    ensures r.None? ==> forall i :: from <= i < |rows| ==> KeyOf(res, rows[i]) != key
    decreases |rows| - from
  {
    if from == |rows| then None
    else if KeyOf(res, rows[from]) == key then Some(from)
    else FindRow(res, rows, key, from + 1)
  }

  /** Whether some row has key `key`. */
  predicate KeyInUse(res: Resource, rows: seq<Record>, key: int)
    requires forall i :: 0 <= i < |rows| ==> Stored(res, rows[i])
  {
    exists i :: 0 <= i < |rows| && KeyOf(res, rows[i]) == key
  }

  /** The key a body is stored under: its own, or the next value of the sequence when it has none. */
  function KeyFor(res: Resource, body: Record, next: int): int {
    if res.keyField in body && body[res.keyField].IntV? then body[res.keyField].i else next
  }

  /** The sequence after a body is inserted: advanced only when the body had no key of its own. */
  function NextAfter(res: Resource, body: Record, next: int): int {
    if res.keyField in body && body[res.keyField].IntV? then next else next + 1
  }

  /** The row stored for a body: its defaults filled in and its key set. */
  function RowFor(res: Resource, body: Record, next: int): (r: Record)
    requires WellFormed(res) && Body(res, body)
    ensures Stored(res, r) && KeyOf(res, r) == KeyFor(res, body, next)
    ensures forall n :: n in body && n != res.keyField ==> n in r && r[n] == body[n]
  {
    DefaultsMakeStored(res, body, KeyFor(res, body, next));
    WithDefaults(res, body)[res.keyField := IntV(KeyFor(res, body, next))]
  }

  /** The keys a bulk insert gives its bodies, in order; the sequence advances past each body without a key. */
  function BulkKeys(res: Resource, bodies: seq<Record>, next: int): (ks: seq<int>)
    ensures |ks| == |bodies|
    ensures bodies != [] ==> ks[0] == KeyFor(res, bodies[0], next)
    decreases |bodies|
  {
    if bodies == [] then []
    else [KeyFor(res, bodies[0], next)] + BulkKeys(res, bodies[1..], NextAfter(res, bodies[0], next))
  }

  /** The sequence's value after a bulk insert. */
  function BulkNext(res: Resource, bodies: seq<Record>, next: int): int
    decreases |bodies|
  {
    if bodies == [] then next else BulkNext(res, bodies[1..], NextAfter(res, bodies[0], next))
  }

  /** The rows a bulk insert stores: each body with its defaults filled in and its key from `BulkKeys`. */
  function BulkRows(res: Resource, bodies: seq<Record>, next: int): (rs: seq<Record>)
    requires WellFormed(res)
    requires forall i :: 0 <= i < |bodies| ==> Body(res, bodies[i])
    ensures |rs| == |bodies|
    decreases |bodies|
  {
    if bodies == [] then []
    else [RowFor(res, bodies[0], next)] + BulkRows(res, bodies[1..], NextAfter(res, bodies[0], next))
  }

  /** Every row a bulk insert stores is a stored row, under the key `BulkKeys` gives its body. */
  lemma BulkRowsStored(res: Resource, bodies: seq<Record>, next: int)
    requires WellFormed(res)
    requires forall i :: 0 <= i < |bodies| ==> Body(res, bodies[i])
    ensures forall i :: 0 <= i < |bodies| ==>
              Stored(res, BulkRows(res, bodies, next)[i])
              && KeyOf(res, BulkRows(res, bodies, next)[i]) == BulkKeys(res, bodies, next)[i]
  {
    forall i | 0 <= i < |bodies|
      ensures Stored(res, BulkRows(res, bodies, next)[i])
              && KeyOf(res, BulkRows(res, bodies, next)[i]) == BulkKeys(res, bodies, next)[i]
    {
      BulkRowStored(res, bodies, next, i);
    }
  }

  lemma {:induction false} BulkRowStored(res: Resource, bodies: seq<Record>, next: int, i: nat)
    requires WellFormed(res)
    requires forall j :: 0 <= j < |bodies| ==> Body(res, bodies[j])
    requires i < |bodies|
    ensures Stored(res, BulkRows(res, bodies, next)[i])
            && KeyOf(res, BulkRows(res, bodies, next)[i]) == BulkKeys(res, bodies, next)[i]
    decreases i
  {
    if i > 0 {
      BulkRowStored(res, bodies[1..], NextAfter(res, bodies[0], next), i - 1);
    }
  }

  /** Each stored row keeps every column its body set, except the key. */
  lemma {:induction false} BulkRowsKeepColumns(res: Resource, bodies: seq<Record>, next: int, i: nat, n: string)
    requires WellFormed(res)
    requires forall j :: 0 <= j < |bodies| ==> Body(res, bodies[j])
    requires i < |bodies| && n in bodies[i] && n != res.keyField
    ensures n in BulkRows(res, bodies, next)[i] && BulkRows(res, bodies, next)[i][n] == bodies[i][n]
    decreases i
  {
    if i > 0 {
      BulkRowsKeepColumns(res, bodies[1..], NextAfter(res, bodies[0], next), i - 1, n);
    }
  }

  /** Every key is unused by the rows and no two of the keys are equal. */
  predicate FreshKeys(res: Resource, rows: seq<Record>, ks: seq<int>)
    requires forall i :: 0 <= i < |rows| ==> Stored(res, rows[i])
  {
    && (forall i :: 0 <= i < |ks| ==> !KeyInUse(res, rows, ks[i]))
    && (forall i, j :: 0 <= i < j < |ks| ==> ks[i] != ks[j])
  }

  /**
   * `bulk_save_objects` then `commit`: the rows of all bodies appended in order, or, when
   * any key would repeat, nothing at all (the commit is rolled back as a whole).
   */
  function InsertAll(res: Resource, rows: seq<Record>, next: int, bodies: seq<Record>): (r: Option<(seq<Record>, int)>)
    requires WellFormed(res)
    requires forall i :: 0 <= i < |rows| ==> Stored(res, rows[i])
    requires forall i :: 0 <= i < |bodies| ==> Body(res, bodies[i])
    ensures r.Some? <==> FreshKeys(res, rows, BulkKeys(res, bodies, next))
    ensures r.Some? ==> r.value == (rows + BulkRows(res, bodies, next), BulkNext(res, bodies, next))
    decreases |bodies|
  {
    if bodies == [] then
      assert rows + [] == rows;
      Some((rows, next))
    else
      var row := RowFor(res, bodies[0], next);
      var next' := NextAfter(res, bodies[0], next);
      assert BulkKeys(res, bodies, next) == [KeyOf(res, row)] + BulkKeys(res, bodies[1..], next');
      FreshKeysStep(res, rows, row, BulkKeys(res, bodies[1..], next'));
      if KeyInUse(res, rows, KeyOf(res, row)) then None
      else
        match InsertAll(res, rows + [row], next', bodies[1..])
        case None => None
        case Some(p) =>
          BulkRowsStep(res, rows, next, bodies);
          Some(p)
  }

  /** The rows of a bulk insert are the first body's row followed by the rows of the rest. */
  lemma BulkRowsStep(res: Resource, rows: seq<Record>, next: int, bodies: seq<Record>)
    requires WellFormed(res)
    requires forall i :: 0 <= i < |bodies| ==> Body(res, bodies[i])
    requires bodies != []
    ensures rows + [RowFor(res, bodies[0], next)] + BulkRows(res, bodies[1..], NextAfter(res, bodies[0], next))
            == rows + BulkRows(res, bodies, next)
  {
    var rest := BulkRows(res, bodies[1..], NextAfter(res, bodies[0], next));
    assert BulkRows(res, bodies, next) == [RowFor(res, bodies[0], next)] + rest;
    assert rows + [RowFor(res, bodies[0], next)] + rest == rows + ([RowFor(res, bodies[0], next)] + rest);
  }

  /** Appending the rows of a bulk insert whose keys are fresh keeps the rows stored and the keys unique. */
  lemma BulkKeepsKeys(res: Resource, rows: seq<Record>, next: int, bodies: seq<Record>)
    requires WellFormed(res)
    requires forall i :: 0 <= i < |rows| ==> Stored(res, rows[i])
    requires UniqueKeys(res, rows)
    requires forall i :: 0 <= i < |bodies| ==> Body(res, bodies[i])
    requires FreshKeys(res, rows, BulkKeys(res, bodies, next))
    ensures var all := rows + BulkRows(res, bodies, next);
            (forall i :: 0 <= i < |all| ==> Stored(res, all[i])) && UniqueKeys(res, all)
  {
    BulkRowsStored(res, bodies, next);
    var added := BulkRows(res, bodies, next);
    var ks := BulkKeys(res, bodies, next);
    var all := rows + added;
    assert forall i :: 0 <= i < |all| ==> all[i] == if i < |rows| then rows[i] else added[i - |rows|];
    forall i, j | 0 <= i < j < |all|
      ensures KeyOf(res, all[i]) != KeyOf(res, all[j])
    {
      if j >= |rows| {
        assert KeyOf(res, all[j]) == ks[j - |rows|];
        if i < |rows| {
          assert !KeyInUse(res, rows, ks[j - |rows|]);
        } else {
          assert KeyOf(res, all[i]) == ks[i - |rows|];
        }
      }
    }
  }

  /** After a row is appended, a key is in use when the old rows use it or it is the new row's key. */
  lemma KeyInUseAppend(res: Resource, rows: seq<Record>, row: Record, k: int)
    requires forall i :: 0 <= i < |rows| ==> Stored(res, rows[i])
    requires Stored(res, row)
    ensures forall i :: 0 <= i < |rows + [row]| ==> Stored(res, (rows + [row])[i])
    ensures KeyInUse(res, rows + [row], k) <==> KeyInUse(res, rows, k) || k == KeyOf(res, row)
  {
    var rows' := rows + [row];
    assert rows'[|rows|] == row;
    if KeyInUse(res, rows, k) {
      var i :| 0 <= i < |rows| && KeyOf(res, rows[i]) == k;
      assert rows'[i] == rows[i];
    }
    if KeyInUse(res, rows', k) {
      var i :| 0 <= i < |rows'| && KeyOf(res, rows'[i]) == k;
      if i < |rows| {
        assert rows'[i] == rows[i];
      }
    }
  }

  /** The keys of a bulk insert are fresh exactly when the first is unused and the rest are fresh once its row is in. */
  lemma FreshKeysStep(res: Resource, rows: seq<Record>, row: Record, ks: seq<int>)
    requires forall i :: 0 <= i < |rows| ==> Stored(res, rows[i])
    requires Stored(res, row)
    ensures forall i :: 0 <= i < |rows + [row]| ==> Stored(res, (rows + [row])[i])
    ensures FreshKeys(res, rows, [KeyOf(res, row)] + ks)
            <==> !KeyInUse(res, rows, KeyOf(res, row)) && FreshKeys(res, rows + [row], ks)
  {
    KeyInUseAppend(res, rows, row, KeyOf(res, row));
    if FreshKeys(res, rows, [KeyOf(res, row)] + ks) {
      assert ([KeyOf(res, row)] + ks)[0] == KeyOf(res, row);
      FreshKeysTail(res, rows, row, ks);
    }
    if !KeyInUse(res, rows, KeyOf(res, row)) && FreshKeys(res, rows + [row], ks) {
      FreshKeysCons(res, rows, row, ks);
    }
  }

  lemma FreshKeysTail(res: Resource, rows: seq<Record>, row: Record, ks: seq<int>)
    requires forall i :: 0 <= i < |rows| ==> Stored(res, rows[i])
    requires Stored(res, row)
    requires FreshKeys(res, rows, [KeyOf(res, row)] + ks)
    ensures forall i :: 0 <= i < |rows + [row]| ==> Stored(res, (rows + [row])[i])
    ensures FreshKeys(res, rows + [row], ks)
  {
    var ks' := [KeyOf(res, row)] + ks;
    KeyInUseAppend(res, rows, row, KeyOf(res, row));
    forall i, j | 0 <= i < j < |ks|
      ensures ks[i] != ks[j]
    {
      assert ks'[i + 1] != ks'[j + 1];
    }
    forall i | 0 <= i < |ks|
      ensures !KeyInUse(res, rows + [row], ks[i])
    {
      assert ks'[0] != ks'[i + 1] && !KeyInUse(res, rows, ks'[i + 1]);
      KeyInUseAppend(res, rows, row, ks[i]);
    }
  }

  lemma FreshKeysCons(res: Resource, rows: seq<Record>, row: Record, ks: seq<int>)
    requires forall i :: 0 <= i < |rows| ==> Stored(res, rows[i])
    requires Stored(res, row)
    requires forall i :: 0 <= i < |rows + [row]| ==> Stored(res, (rows + [row])[i])
    requires !KeyInUse(res, rows, KeyOf(res, row)) && FreshKeys(res, rows + [row], ks)
    ensures FreshKeys(res, rows, [KeyOf(res, row)] + ks)
  {
    var ks' := [KeyOf(res, row)] + ks;
    forall i | 0 <= i < |ks|
      ensures ks[i] != KeyOf(res, row) && !KeyInUse(res, rows, ks[i])
    {
      KeyInUseAppend(res, rows, row, ks[i]);
    }
    forall i | 0 <= i < |ks'|
      ensures !KeyInUse(res, rows, ks'[i])
    {
      if i > 0 {
        assert ks'[i] == ks[i - 1];
      }
    }
    forall i, j | 0 <= i < j < |ks'|
      ensures ks'[i] != ks'[j]
    {
      assert ks'[j] == ks[j - 1];
      if i > 0 {
        assert ks'[i] == ks[i - 1];
      }
    }
  }

  class Table {
    const res: Resource
    var rows: seq<Record>
    var nextKey: int

    ghost predicate Valid()
      reads this
    {
      && WellFormed(res)
      && (forall i :: 0 <= i < |rows| ==> Stored(res, rows[i]))
      && UniqueKeys(res, rows)
    }

    constructor (r: Resource, initial: seq<Record>, next: int)
      requires WellFormed(r)
      requires forall i :: 0 <= i < |initial| ==> Stored(r, initial[i])
      requires UniqueKeys(r, initial)
      ensures Valid() && res == r && rows == initial && nextKey == next
    {
      res := r;
      rows := initial;
      nextKey := next;
    }

    /** `get_X(key)`: the row with that key, or None. */
    function Get(key: int): (r: Option<Record>)
      reads this
      requires Valid()
      ensures r.Some? <==> KeyInUse(res, rows, key)
      ensures r.Some? ==> r.value in rows && KeyOf(res, r.value) == key
    {
      match FindRow(res, rows, key, 0)
      case Some(i) => Some(rows[i])
      case None => None
    }

    /**
     * `create_X(body)`: `add`, `commit`, `refresh`. The row is stored with the body's own key
     * or the next sequence value; a key already in use fails the commit.
     */
    method Create(body: Record) returns (r: Result<Record>)
      requires Valid() && Body(res, body)
      modifies this
      ensures Valid()
      ensures r.Err? <==> KeyInUse(res, old(rows), KeyFor(res, body, old(nextKey)))
      ensures r.Err? ==> r.error == IntegrityError && rows == old(rows) && nextKey == old(nextKey)
      ensures r.Ok? ==> && r.value == RowFor(res, body, old(nextKey))
                        && rows == old(rows) + [r.value]
                        && nextKey == NextAfter(res, body, old(nextKey))
      ensures r.Ok? ==> Get(KeyOf(res, r.value)) == Some(r.value)
    {
      var key := KeyFor(res, body, nextKey);
      if KeyInUse(res, rows, key) {
        return Err(IntegrityError);
      }
      var row := RowFor(res, body, nextKey);
      AppendKeepsKeys(res, rows, row, rows + [row]);
      rows := rows + [row];
      nextKey := NextAfter(res, body, nextKey);
      FindStoredRow(res, rows, |rows| - 1);
      return Ok(row);
    }

    /** `create_Xs(bodies)`: all rows inserted in one commit, or none. */
    method CreateAll(bodies: seq<Record>) returns (r: Result<seq<Record>>)
      requires Valid()
      requires forall i :: 0 <= i < |bodies| ==> Body(res, bodies[i])
      modifies this
      ensures Valid()
      ensures r.Err? <==> !FreshKeys(res, old(rows), BulkKeys(res, bodies, old(nextKey)))
      ensures r.Err? ==> r.error == IntegrityError && rows == old(rows) && nextKey == old(nextKey)
      ensures r.Ok? ==> && r.value == BulkRows(res, bodies, old(nextKey))
                        && rows == old(rows) + r.value
                        && nextKey == BulkNext(res, bodies, old(nextKey))
    {
      var inserted := InsertAll(res, rows, nextKey, bodies);
      if inserted.None? {
        return Err(IntegrityError);
      }
      var before := rows;
      BulkKeepsKeys(res, rows, nextKey, bodies);
      rows, nextKey := inserted.value.0, inserted.value.1;
      r := Ok(rows[|before|..]);
      assert rows == before + rows[|before|..];
    }

    /**
     * `update_X(key, patch)`: None when no row has the key; otherwise every column the request
     * set is assigned in turn, and the commit stores the changed row. A request that sets the
     * key to NULL or to a key another row has fails the commit and changes nothing.
     */
    method Update(key: int, patch: Record) returns (r: Result<Option<Record>>)
      requires Valid() && Conforms(res, patch)
      modifies this`rows
      ensures Valid()
      ensures r == Ok(None) <==> !KeyInUse(res, old(rows), key)
      ensures r == Ok(None) ==> rows == old(rows)
      ensures r.Err? ==> r.error == IntegrityError && rows == old(rows)
      ensures r.Ok? && r.value.Some? ==>
                exists i :: 0 <= i < |old(rows)| && KeyOf(res, old(rows)[i]) == key
                            && r.value.value == Merge(old(rows)[i], patch)
                            && rows == old(rows)[i := r.value.value]
      ensures KeyInUse(res, old(rows), key) ==>
                (r.Err? <==> res.keyField in patch &&
                             (patch[res.keyField].NullV? ||
                              (patch[res.keyField].IntV? && patch[res.keyField].i != key
                               && KeyInUse(res, old(rows), patch[res.keyField].i))))
      ensures r.Ok? && r.value.Some? ==> Get(KeyOf(res, r.value.value)) == r.value
    {
      var found := FindRow(res, rows, key, 0);
      if found.None? {
        return Ok(None);
      }
      var i := found.value;
      var row := ApplyPatch(rows[i], patch);
      if res.keyField in patch && patch[res.keyField].NullV? {
        return Err(IntegrityError);
      }
      MergeKeepsStored(res, rows[i], patch);
      var newKey := KeyOf(res, row);
      if newKey != key && KeyInUse(res, rows, newKey) {
        return Err(IntegrityError);
      }
      ReplaceKeepsKeys(res, rows, i, row, rows[i := row]);
      rows := rows[i := row];
      FindStoredRow(res, rows, i);
      return Ok(Some(row));
    }

    /** `delete_X(key)`: True when a row with the key existed and is now gone, False otherwise. */
    method Delete(key: int) returns (deleted: bool)
      requires Valid()
      modifies this`rows
      ensures Valid()
      ensures deleted <==> KeyInUse(res, old(rows), key)
      ensures !deleted ==> rows == old(rows)
      ensures deleted ==> exists i :: 0 <= i < |old(rows)| && KeyOf(res, old(rows)[i]) == key
                                      && rows == old(rows)[..i] + old(rows)[i + 1..]
      ensures !KeyInUse(res, rows, key)
    {
      var found := FindRow(res, rows, key, 0);
      if found.None? {
        return false;
      }
      var i := found.value;
      RemoveKeepsKeys(res, rows, i);
      rows := rows[..i] + rows[i + 1..];
      return true;
    }
  }

  /** `get_Xs(chunk_size)`: the first `chunk_size` rows; PostgreSQL refuses a negative LIMIT. */
  function Chunk(rows: seq<Record>, chunkSize: int): (r: Result<seq<Record>>)
    ensures r.Err? <==> chunkSize < 0
    ensures r.Ok? ==> |r.value| == if chunkSize < |rows| then chunkSize else |rows|
    ensures r.Ok? ==> r.value <= rows
  {
    if chunkSize < 0 then Err(InternalServerError)
    else if chunkSize < |rows| then Ok(rows[..chunkSize])
    else Ok(rows)
  }

  /** `SELECT ... OFFSET skip LIMIT limit`: at most `limit` rows, starting after the first `skip`. */
  function Page(rows: seq<Record>, skip: int, limit: int): (r: Result<seq<Record>>)
    ensures r.Err? <==> skip < 0 || limit < 0
    ensures r.Ok? ==> |r.value| <= limit
    ensures r.Ok? ==> forall j :: 0 <= j < |r.value| ==> skip + j < |rows| && r.value[j] == rows[skip + j]
    ensures r.Ok? && skip + limit <= |rows| ==> |r.value| == limit
    ensures r.Ok? && skip >= |rows| ==> r.value == []
    ensures r.Ok? && skip < |rows| ==> |r.value| == if limit < |rows| - skip then limit else |rows| - skip
  {
    if skip < 0 || limit < 0 then Err(InternalServerError)
    else
      var lo := if skip < |rows| then skip else |rows|;
      var hi := if skip + limit < |rows| then skip + limit else |rows|;
      Ok(rows[lo..hi])
  }

  /** With unique keys, looking up the key of a row finds that very row. */
  lemma FindStoredRow(res: Resource, rows: seq<Record>, i: nat)
    requires forall j :: 0 <= j < |rows| ==> Stored(res, rows[j])
    requires UniqueKeys(res, rows)
    requires i < |rows|
    ensures FindRow(res, rows, KeyOf(res, rows[i]), 0) == Some(i)
  {
  }

  /** Appending a stored row whose key no row has keeps the rows stored and the keys unique. */
  lemma AppendKeepsKeys(res: Resource, rows: seq<Record>, row: Record, rows': seq<Record>)
    requires forall j :: 0 <= j < |rows| ==> Stored(res, rows[j])
    requires UniqueKeys(res, rows)
    requires Stored(res, row) && !KeyInUse(res, rows, KeyOf(res, row)) && rows' == rows + [row]
    ensures forall j :: 0 <= j < |rows'| ==> Stored(res, rows'[j])
    ensures UniqueKeys(res, rows')
  {
    assert forall j :: 0 <= j < |rows| ==> rows'[j] == rows[j];
  }

  /** Replacing one row by a stored row whose key no other row has keeps the rows stored and the keys unique. */
  lemma ReplaceKeepsKeys(res: Resource, rows: seq<Record>, i: nat, row: Record, rows': seq<Record>)
    requires forall j :: 0 <= j < |rows| ==> Stored(res, rows[j])
    requires UniqueKeys(res, rows)
    requires i < |rows| && Stored(res, row) && rows' == rows[i := row]
    requires forall j :: 0 <= j < |rows| && j != i ==> KeyOf(res, rows[j]) != KeyOf(res, row)
    ensures forall j :: 0 <= j < |rows'| ==> Stored(res, rows'[j])
    ensures UniqueKeys(res, rows')
  {
    forall a, b | 0 <= a < b < |rows'|
      ensures KeyOf(res, rows'[a]) != KeyOf(res, rows'[b])
    {
      if a != i && b != i {
        assert rows'[a] == rows[a] && rows'[b] == rows[b];
      }
    }
  }

  /** Removing one row keeps the rest stored with unique keys, and its key is then unused. */
  lemma RemoveKeepsKeys(res: Resource, rows: seq<Record>, i: nat)
    requires forall j :: 0 <= j < |rows| ==> Stored(res, rows[j])
    requires UniqueKeys(res, rows)
    requires i < |rows|
    ensures var rows' := rows[..i] + rows[i + 1..];
            && (forall j :: 0 <= j < |rows'| ==> Stored(res, rows'[j]))
            && UniqueKeys(res, rows')
            && !KeyInUse(res, rows', KeyOf(res, rows[i]))
  {
    var rows' := rows[..i] + rows[i + 1..];
    assert forall a :: 0 <= a < |rows'| ==> rows'[a] == (if a < i then rows[a] else rows[a + 1]);
  }

  /** A page is the chunk of the same size when it starts at the first row. */
  lemma FirstPageIsChunk(rows: seq<Record>, limit: int)
    requires limit >= 0
    ensures Page(rows, 0, limit) == Chunk(rows, limit)
  {
    if limit < |rows| {
      assert rows[0..limit] == rows[..limit];
    } else {
      assert rows[0..|rows|] == rows;
    }
  }

  /** Consecutive pages tile the table: the page after `skip` rows of size `a + b` is two pages. */
  lemma PagesTile(rows: seq<Record>, skip: nat, a: nat, b: nat)
    ensures Page(rows, skip, a + b).Ok? && Page(rows, skip, a).Ok? && Page(rows, skip + a, b).Ok?
    ensures Page(rows, skip, a + b).value == Page(rows, skip, a).value + Page(rows, skip + a, b).value
  {
  }
}
