/** The `asteroids` table and `AsteroidDatabase.upsert_asteroid`: the input dict is cut down to
    the table's columns, the raw input is kept as `source_data` unless the input brings its own,
    and the row keyed by `data['id']` is created or overwritten column by column. */
module Database {
  import opened Values

  /** A stored row: every column of the table, SQL NULL being `JNull`. */
  type Row = map<string, Json>

  /** The column names of the `Asteroid` model. */
  const Columns: set<string> := {
    "id", "name", "diameter_km", "hazardous", "orbital_eccentricity", "orbital_inclination",
    "orbital_period_yr", "orbital_semi_major_axis", "close_approach_date", "miss_distance_km",
    "velocity_km_s", "orbit_class", "source_data", "last_updated", "data_source"
  }

  /** The column that keeps the raw input, and the one that receives the insertion time. */
  const SourceData := "source_data"
  const LastUpdated := "last_updated"

  /** `{k: v for k, v in data.items() if k in valid_columns}`: the members named after a column,
      in their order. */
  function FilterColumns(data: Dict): (r: Dict)
    ensures |r| <= |data|
    ensures forall i | 0 <= i < |r| :: r[i].0 in Columns
    decreases |data|
  {
    if data == [] then []
    else
      var init := FilterColumns(data[..|data| - 1]);
      if data[|data| - 1].0 in Columns then init + [data[|data| - 1]] else init
  }

  /** Lines 57-58: the whole input is stored as `source_data` unless a `source_data` column survived. */
  function WithSourceData(filtered: Dict, data: Dict): Dict {
    if SourceData in Keys(filtered) then filtered else filtered + [(SourceData, JObj(data))]
  }

  /** What `upsert_asteroid` writes: the filtered input with the `source_data` fallback. */
  function Written(data: Dict): Dict {
    WithSourceData(FilterColumns(data), data)
  }

  /** `data['id']` as the row key: a missing `id` raises KeyError, and an `id` that is not a
      string cannot be compared with the string primary key. */
  function RowKey(data: Dict): (r: Outcome<string>)
    ensures r.Returned? <==> Get(data, "id").Some? && Get(data, "id").value.JStr?
    ensures r.Returned? ==> Get(data, "id") == Some(JStr(r.value))
  {
    match Get(data, "id")
    case Some(JStr(id)) => Returned(id)
    case _ => Raised
  }

  /** `Asteroid(**filtered_data)`: the given columns, `last_updated` defaulting to the insertion
      time `now`, every other column NULL. */
  function NewRow(filtered: Dict, now: Json): Row {
    map c | c in Columns :: if c in Keys(filtered) then Get(filtered, c).value
                            else if c == LastUpdated then now
                            else JNull
  }

  /** The `setattr` loop of lines 65-66: each member in turn overwrites its column. */
  function Overwrite(row: Row, fields: Dict): Row
    decreases |fields|
  {
    if fields == [] then row
    else Overwrite(row, fields[..|fields| - 1])[fields[|fields| - 1].0 := fields[|fields| - 1].1]
  }

  /** The table after `upsert_asteroid(data)` at time `now`, or Raised when `data['id']` fails. */
  function Upserted(rows: map<string, Row>, data: Dict, now: Json): Outcome<map<string, Row>> {
    var id :- RowKey(data);
    Returned(rows[id := RowAfter(rows, id, data, now)])
  }

  function RowAfter(rows: map<string, Row>, id: string, data: Dict, now: Json): Row {
    var fields := Written(data);
    if id !in rows then NewRow(fields, now) else Overwrite(rows[id], fields)
  }

  /** Every row holds exactly the table's columns, and its `id` column is its key. */
  predicate RowsValid(rows: map<string, Row>) {
    forall id | id in rows :: rows[id].Keys == Columns && rows[id]["id"] == JStr(id)
  }

  /** The `asteroids` table behind a session. */
  class AsteroidDatabase {
    var rows: map<string, Row>

    predicate Valid()
      reads this
    {
      RowsValid(rows)
    }

    /** A database whose table has been created and is empty. */
    constructor()
      ensures rows == map[] && Valid()
    {
      rows := map[];
    }

    /** `upsert_asteroid(data)`, committed at time `now`. It reports whether it raised; a raise
        leaves the table as it was. */
    method UpsertAsteroid(data: Dict, now: Json) returns (raised: bool)
      requires Valid()
      modifies this
      ensures Valid()
      ensures raised <==> Upserted(old(rows), data, now).Raised?
      ensures !raised ==> rows == Upserted(old(rows), data, now).value
      ensures raised ==> rows == old(rows)
    {
      var fields := Written(data);
      var key := RowKey(data);
      if key.Raised? {
        return true;
      }
      var id := key.value;
      if id !in rows {
        rows := rows[id := NewRow(fields, now)];
      } else {
        var row := rows[id];
        var i := 0;
        while i < |fields|
          invariant 0 <= i <= |fields|
          invariant row == Overwrite(rows[id], fields[..i])
        {
          assert fields[..i + 1][..i] == fields[..i];
          row := row[fields[i].0 := fields[i].1];
          i := i + 1;
        }
        assert fields[..|fields|] == fields;
        rows := rows[id := row];
      }
      UpsertKeepsValid(old(rows), data, now);
      return false;
    }
  }

  // ---------------------------------------------------------------------------------------
  // Lemmas

  /** Only column names survive the filter, each with the input's value. */
  lemma {:induction false} FilterColumnsGet(data: Dict, k: string)
    ensures Get(FilterColumns(data), k) == if k in Columns then Get(data, k) else None
    ensures Keys(FilterColumns(data)) == Keys(data) * Columns
    decreases |data|
  {
    if data != [] {
      var n := |data| - 1;
      FilterColumnsGet(data[..n], k);
      var init := FilterColumns(data[..n]);
      assert Keys(data) == Keys(data[..n]) + {data[n].0};
      assert Get(data, k) == if data[n].0 == k then Some(data[n].1) else Get(data[..n], k);
      if data[n].0 in Columns {
        assert FilterColumns(data) == init + [data[n]];
        assert Keys([data[n]]) == {data[n].0};
        GetAppend(init, [data[n]], k);
      } else {
        assert FilterColumns(data) == init;
      }
    }
  }

  /** Without a `source_data` member, the stored `source_data` is the whole input, including
      the members the filter dropped; every other column is filtered as usual. */
  lemma WrittenGet(data: Dict, k: string)
    ensures Get(Written(data), k) ==
      if k == SourceData && SourceData !in Keys(data) then Some(JObj(data))
      else if k in Columns then Get(data, k)
      else None
    ensures Keys(Written(data)) == (Keys(data) * Columns) + {SourceData}
  {
    FilterColumnsGet(data, k);
    FilterColumnsGet(data, SourceData);
    var filtered := FilterColumns(data);
    if SourceData !in Keys(filtered) {
      assert Keys([(SourceData, JObj(data))]) == {SourceData};
      GetAppend(filtered, [(SourceData, JObj(data))], k);
    }
  }

  /** After the `setattr` loop a column holds the last value written to it, or else its old value. */
  lemma {:induction false} OverwriteGet(row: Row, fields: Dict)
    ensures Overwrite(row, fields).Keys == row.Keys + Keys(fields)
    ensures forall c | c in Overwrite(row, fields) ::
      Overwrite(row, fields)[c] == if c in Keys(fields) then Get(fields, c).value else row[c]
    decreases |fields|
  {
    if fields != [] {
      OverwriteGet(row, fields[..|fields| - 1]);
    }
  }

  /** A new row holds every column; the written members, `last_updated` set to `now` unless
      written, and NULL elsewhere. */
  lemma NewRowColumns(fields: Dict, now: Json)
    ensures NewRow(fields, now).Keys == Columns
    ensures forall c | c in Columns && c in Keys(fields) :: NewRow(fields, now)[c] == Get(fields, c).value
    ensures LastUpdated !in Keys(fields) ==> NewRow(fields, now)[LastUpdated] == now
    ensures forall c | c in Columns && c !in Keys(fields) && c != LastUpdated :: NewRow(fields, now)[c] == JNull
  {
  }

  /** The lookup key is `data['id']`: the upsert raises exactly when it is missing or not a string. */
  lemma UpsertRaises(rows: map<string, Row>, data: Dict, now: Json)
    ensures Upserted(rows, data, now).Raised? <==> !(Get(data, "id").Some? && Get(data, "id").value.JStr?)
  {
  }

  /** Without a row for the id, exactly one row is added, holding the written columns, the
      insertion time as `last_updated` unless written, and NULL elsewhere. */
  lemma UpsertInserts(rows: map<string, Row>, data: Dict, now: Json, id: string)
    requires Get(data, "id") == Some(JStr(id)) && id !in rows
    ensures Upserted(rows, data, now).Returned?
    ensures var after := Upserted(rows, data, now).value;
      && after.Keys == rows.Keys + {id}
      && |after| == |rows| + 1
      && after[id].Keys == Columns
      && (forall c | c in Columns ::
            after[id][c] == if c in Keys(Written(data)) then Get(Written(data), c).value
                            else if c == LastUpdated then now
                            else JNull)
  {
    assert (rows[id := NewRow(Written(data), now)]).Keys == rows.Keys + {id};
  }

  /** With a row for the id, each written column is overwritten and every other column, including
      `last_updated`, keeps its value. */
  lemma UpsertUpdates(rows: map<string, Row>, data: Dict, now: Json, id: string)
    requires Get(data, "id") == Some(JStr(id)) && id in rows
    ensures Upserted(rows, data, now).Returned?
    ensures var after := Upserted(rows, data, now).value;
      && after.Keys == rows.Keys
      && after[id].Keys == rows[id].Keys + Keys(Written(data))
      && (forall c | c in after[id] ::
            after[id][c] == if c in Keys(Written(data)) then Get(Written(data), c).value else rows[id][c])
  {
    OverwriteGet(rows[id], Written(data));
  }

  /** Rows under every other id are unchanged, and the table grows by at most one row. */
  lemma UpsertFrame(rows: map<string, Row>, data: Dict, now: Json)
    requires Upserted(rows, data, now).Returned?
    ensures var after := Upserted(rows, data, now).value;
      && rows.Keys <= after.Keys
      && |after| <= |rows| + 1
      && (forall other | other in rows && Get(data, "id") != Some(JStr(other)) ::
            after[other] == rows[other])
  {
    var id := RowKey(data).value;
    var row := Upserted(rows, data, now).value[id];
    assert Upserted(rows, data, now).value == rows[id := row];
  }

  /** Only columns are written, and the `id` written is the input's. */
  lemma WrittenColumns(data: Dict)
    ensures Keys(Written(data)) <= Columns
    ensures Get(Written(data), "id") == Get(data, "id")
  {
    WrittenGet(data, "id");
    forall c | c in Keys(Written(data)) ensures c in Columns {
      WrittenGet(data, c);
    }
  }

  /** Writing into a row the values it already holds changes nothing. */
  lemma {:induction false} OverwriteUnchanged(row: Row, fields: Dict)
    requires forall c | c in Keys(fields) :: c in row && row[c] == Get(fields, c).value
    ensures Overwrite(row, fields) == row
  {
    OverwriteGet(row, fields);
  }

  /** Upserting the same dict twice leaves the table as upserting it once, whatever the clock
      reads the second time. */
  lemma UpsertIdempotent(rows: map<string, Row>, data: Dict, now: Json, later: Json)
    requires Upserted(rows, data, now).Returned?
    ensures Upserted(Upserted(rows, data, now).value, data, later) == Upserted(rows, data, now)
  {
    var id := RowKey(data).value;
    var fields := Written(data);
    var once := Upserted(rows, data, now).value;
    WrittenColumns(data);
    if id in rows {
      OverwriteGet(rows[id], fields);
    } else {
      NewRowColumns(fields, now);
    }
    OverwriteUnchanged(once[id], fields);
    assert once[id := once[id]] == once;
  }

  /** The row an upsert stores under `id` holds exactly the columns, with `id` as its `id`. */
  lemma UpsertedRow(rows: map<string, Row>, data: Dict, now: Json, id: string)
    requires RowsValid(rows) && RowKey(data) == Returned(id)
    ensures var row := Upserted(rows, data, now).value[id];
      row.Keys == Columns && row["id"] == JStr(id)
  {
    var fields := Written(data);
    WrittenColumns(data);
    assert "id" in Keys(fields) && Get(fields, "id").value == JStr(id);
    if id in rows {
      OverwriteGet(rows[id], fields);
      assert rows[id].Keys + Keys(fields) == Columns;
    } else {
      NewRowColumns(fields, now);
    }
  }

  /** An upsert keeps every row complete and keyed by its own `id`. */
  lemma UpsertKeepsValid(rows: map<string, Row>, data: Dict, now: Json)
    requires RowsValid(rows) && Upserted(rows, data, now).Returned?
    ensures RowsValid(Upserted(rows, data, now).value)
  {
    var id := RowKey(data).value;
    UpsertedRow(rows, data, now, id);
    var after := Upserted(rows, data, now).value;
    assert after == rows[id := after[id]];
  }

  /** An input without `source_data` is stored whole in its row's `source_data` column, on
      insert and on update alike. */
  lemma UpsertStoresSourceData(rows: map<string, Row>, data: Dict, now: Json, id: string)
    requires RowKey(data) == Returned(id) && SourceData !in Keys(data)
    ensures Upserted(rows, data, now).Returned? && id in Upserted(rows, data, now).value
    ensures var row := Upserted(rows, data, now).value[id];
      SourceData in row && row[SourceData] == JObj(data)
  {
    WrittenGet(data, SourceData);
    WrittenColumns(data);
    if id in rows {
      OverwriteGet(rows[id], Written(data));
    }
  }
}
