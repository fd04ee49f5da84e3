/** `TariffDB` (src/services/sqlite.py): one SQLite table `shipping_tariffs`
    whose primary key is `doc_id`. The table is a map from `doc_id` to its
    row; a missing table is a state of its own. Connections, commits and
    SQLite's type affinity are not modelled. */
module TariffStore {
  import opened Common
  import TariffModels

  /** One stored row, one field per column. */
  datatype Row = Row(
    docId: Value,
    tariffType: Value,
    country: Value,
    linerName: Value,
    port: Value,
    equipmentType: Value,
    currency: Value,
    freeDays: Value,
    bucket1: Value,
    bucket2: Value,
    bucket3: Value)

  /** The database: no `shipping_tariffs` table yet, or the table's rows by `doc_id`. */
  datatype Db = NoTable | Table(rows: map<Value, Row>)

  /** The result of a call that reports success as a boolean. */
  datatype Stored = Stored(ok: bool, db: Db)

  /** Every row sits under its own, non-null `doc_id`. */
  predicate Valid(db: Db) {
    db.Table? ==> forall k :: k in db.rows ==> k != Null && db.rows[k].docId == k
  }

  /** Number of columns of the table and of placeholders of the insert. */
  const Columns: nat := 11

  /** The range of SQLite's INTEGER: a signed 64-bit integer. */
  predicate Int64(n: int) {
    -0x8000_0000_0000_0000 <= n < 0x8000_0000_0000_0000
  }

  /** A value the sqlite3 module can bind to a parameter: binding a Python
      int outside the 64-bit range raises `OverflowError`. */
  predicate Bindable(v: Value) {
    v.Int? ==> Int64(v.number)
  }

  /** A parameter tuple the insert statement accepts: eleven bindable values. */
  predicate WellFormed(data: seq<Value>) {
    |data| == Columns && forall i :: 0 <= i < |data| ==> Bindable(data[i])
  }

  /** A row as `SELECT *` returns it: the table's declared column order
      doc_id, Type, Country, Liner Name, Port, Equipment Type, Currency,
      Free days, Bucket 1, Bucket 2, Bucket 3. */
  function SelectColumns(r: Row): seq<Value> {
    [r.docId, r.tariffType, r.country, r.linerName, r.port, r.equipmentType,
     r.currency, r.freeDays, r.bucket1, r.bucket2, r.bucket3]
  }

  /** A row in the column order of the insert statement: Country, Type,
      Liner Name, Port, Equipment Type, Currency, Free days, Bucket 1,
      Bucket 2, Bucket 3, doc_id. */
  function BindingOrder(r: Row): seq<Value> {
    [r.country, r.tariffType, r.linerName, r.port, r.equipmentType,
     r.currency, r.freeDays, r.bucket1, r.bucket2, r.bucket3, r.docId]
  }

  /** The row the insert statement builds from its eleven parameters. */
  function RowFromBindings(data: seq<Value>): (r: Row)
    requires |data| == Columns
    ensures BindingOrder(r) == data
    ensures r.docId == data[10]
  {
    Row(docId := data[10], tariffType := data[1], country := data[0],
        linerName := data[2], port := data[3], equipmentType := data[4],
        currency := data[5], freeDays := data[6], bucket1 := data[7],
        bucket2 := data[8], bucket3 := data[9])
  }

  /** `create_db()`: CREATE TABLE IF NOT EXISTS. */
  function CreateDb(db: Db): (r: Stored)
    ensures r.ok && r.db.Table?
    ensures db.Table? ==> r.db == db
    ensures db.NoTable? ==> r.db.rows == map[]
    ensures Valid(db) ==> Valid(r.db)
  {
    match db
    case NoTable => Stored(true, Table(map[]))
    case Table(_) => Stored(true, db)
  }

  /** Creating the table twice is creating it once. */
  lemma CreateDbIdempotent(db: Db)
    ensures CreateDb(CreateDb(db).db) == CreateDb(db)
  {
  }

  /** `insert_record(data)`: INSERT OR REPLACE keyed on `doc_id = data[10]`.
      A call without a table, with a tuple that is not eleven long, or with
      an int that does not fit in 64 bits raises inside, is reported as
      `False`, and commits nothing. */
  function InsertRecord(db: Db, data: seq<Value>): (r: Stored)
    requires |data| == Columns ==> data[10] != Null
    ensures r.ok <==> db.Table? && WellFormed(data)
    ensures !r.ok ==> r.db == db
    ensures r.ok ==> r.db.Table? && data[10] in r.db.rows && BindingOrder(r.db.rows[data[10]]) == data
    ensures r.ok ==> r.db.rows.Keys == db.rows.Keys + {data[10]}
    ensures r.ok ==> forall k :: k in db.rows && k != data[10] ==> r.db.rows[k] == db.rows[k]
    ensures Valid(db) ==> Valid(r.db)
  {
    if db.NoTable? || !WellFormed(data) then Stored(false, db)
    else Stored(true, Table(db.rows[data[10] := RowFromBindings(data)]))
  }

  /** Inserting the same tuple twice leaves the same table as inserting it once. */
  lemma InsertIdempotent(db: Db, data: seq<Value>)
    requires |data| == Columns ==> data[10] != Null
    ensures InsertRecord(InsertRecord(db, data).db, data) == InsertRecord(db, data)
  {
  }

  /** Inserting each tuple of a batch in turn, as a caller looping over
      `insert_record` does. */
  function InsertAll(db: Db, batch: seq<seq<Value>>): Db
    requires forall i :: 0 <= i < |batch| ==> (|batch[i]| == Columns ==> batch[i][10] != Null)
    decreases |batch|
  {
    if |batch| == 0 then db
    else InsertAll(InsertRecord(db, batch[0]).db, batch[1..])
  }

  /** The `doc_id`s of the well-formed tuples of a batch. */
  function KeysOf(batch: seq<seq<Value>>): set<Value> {
    set i | 0 <= i < |batch| && WellFormed(batch[i]) :: batch[i][10]
  }

  /** After a batch of inserts the table holds one row per distinct `doc_id`
      that was there before or successfully inserted. */
  lemma {:induction false} InsertAllKeys(db: Db, batch: seq<seq<Value>>)
    requires db.Table?
    requires forall i :: 0 <= i < |batch| ==> (|batch[i]| == Columns ==> batch[i][10] != Null)
    ensures InsertAll(db, batch).Table?
    ensures InsertAll(db, batch).rows.Keys == db.rows.Keys + KeysOf(batch)
    decreases |batch|
  {
    if |batch| > 0 {
      var next := InsertRecord(db, batch[0]).db;
      InsertStepKeys(db, batch);
      InsertAllKeys(next, batch[1..]);
      KeysOfSplit(batch);
      assert InsertAll(db, batch).rows.Keys == (db.rows.Keys + KeysOf(batch[..1])) + KeysOf(batch[1..]);
    }
  }

  /** So the row count after a batch is the number of those distinct keys. */
  lemma InsertAllCount(db: Db, batch: seq<seq<Value>>)
    requires db.Table?
    requires forall i :: 0 <= i < |batch| ==> (|batch[i]| == Columns ==> batch[i][10] != Null)
    ensures InsertAll(db, batch).Table?
    ensures |InsertAll(db, batch).rows| == |db.rows.Keys + KeysOf(batch)|
  {
    InsertAllKeys(db, batch);
    assert |InsertAll(db, batch).rows| == |InsertAll(db, batch).rows.Keys|;
  }

  /** The first insert of a batch adds the first tuple's key, if it has one. */
  lemma InsertStepKeys(db: Db, batch: seq<seq<Value>>)
    requires db.Table? && |batch| > 0
    requires forall i :: 0 <= i < |batch| ==> (|batch[i]| == Columns ==> batch[i][10] != Null)
    ensures InsertAll(db, batch) == InsertAll(InsertRecord(db, batch[0]).db, batch[1..])
    ensures InsertRecord(db, batch[0]).db.Table?
    ensures InsertRecord(db, batch[0]).db.rows.Keys == db.rows.Keys + KeysOf(batch[..1])
    ensures forall i :: 0 <= i < |batch[1..]| ==> (|batch[1..][i]| == Columns ==> batch[1..][i][10] != Null)
  {
    if WellFormed(batch[0]) {
      assert batch[..1][0] == batch[0];
      assert KeysOf(batch[..1]) == {batch[0][10]};
    } else {
      assert KeysOf(batch[..1]) == {};
    }
    assert forall i :: 0 <= i < |batch[1..]| ==> batch[1..][i] == batch[i + 1];
  }

  /** The keys of a batch are those of its first tuple and those of the rest. */
  lemma KeysOfSplit(batch: seq<seq<Value>>)
    requires |batch| > 0
    ensures KeysOf(batch) == KeysOf(batch[..1]) + KeysOf(batch[1..])
  {
    forall k | k in KeysOf(batch)
      ensures k in KeysOf(batch[..1]) + KeysOf(batch[1..])
    {
      var i :| 0 <= i < |batch| && WellFormed(batch[i]) && k == batch[i][10];
      if i > 0 {
        assert batch[1..][i - 1] == batch[i];
      } else {
        assert batch[..1][0] == batch[i];
      }
    }
    forall k | k in KeysOf(batch[1..])
      ensures k in KeysOf(batch)
    {
      var i :| 0 <= i < |batch[1..]| && WellFormed(batch[1..][i]) && k == batch[1..][i][10];
      assert batch[1..][i] == batch[i + 1];
    }
  }

  /** `fetch_records()`: every row of the table, each of which comes back as
      its `SelectColumns` tuple; `SELECT *` has no row order, so the result
      is a set. `None` when the query fails because there is no table. */
  function FetchRecords(db: Db): (r: Option<set<Row>>)
    ensures r.Some? <==> db.Table?
    ensures r.Some? ==> forall k :: k in db.rows ==> db.rows[k] in r.value
    ensures r.Some? && Valid(db) ==>
      forall row :: row in r.value ==> row.docId in db.rows && db.rows[row.docId] == row
  {
    match db
    case NoTable => None
    case Table(rows) =>
      forall row | row in rows.Values && Valid(db)
        ensures row.docId in rows && rows[row.docId] == row
      {
        var k :| k in rows && rows[k] == row;
      }
      Some(rows.Values)
  }

  /** Reading a `SELECT *` tuple back into a row: tuples and rows determine
      each other, so a set of rows loses nothing against the list of tuples. */
  function RowOfColumns(t: seq<Value>): (r: Row)
    requires |t| == Columns
    ensures SelectColumns(r) == t
  {
    Row(t[0], t[1], t[2], t[3], t[4], t[5], t[6], t[7], t[8], t[9], t[10])
  }

  /** Every row of a valid table is fetched exactly once: as many records as rows. */
  lemma FetchAll(db: Db)
    requires Valid(db) && db.Table?
    ensures |FetchRecords(db).value| == |db.rows|
  {
    FetchedCount(db.rows, db.rows.Keys);
    assert FetchRecords(db).value == Fetched(db.rows, db.rows.Keys);
  }

  function Fetched(rows: map<Value, Row>, keys: set<Value>): set<Row>
    requires keys <= rows.Keys
  {
    set k | k in keys :: rows[k]
  }

  /** Rows under distinct keys are distinct, so there are as many as keys. */
  lemma {:induction false} FetchedCount(rows: map<Value, Row>, keys: set<Value>)
    requires keys <= rows.Keys
    requires forall k :: k in rows ==> rows[k].docId == k
    ensures |Fetched(rows, keys)| == |keys|
    decreases keys
  {
    if keys != {} {
      var k :| k in keys;
      FetchedCount(rows, keys - {k});
      assert Fetched(rows, keys) == Fetched(rows, keys - {k}) + {rows[k]};
      assert rows[k] !in Fetched(rows, keys - {k}) by {
        forall k2 | k2 in keys - {k}
          ensures rows[k2] != rows[k]
        {
          assert rows[k2].docId == k2;
        }
      }
    }
  }

  /** `query_by_country(country)`: the rows whose Country column (the third
      of the `SELECT *` tuple, after doc_id and Type) equals `country`. */
  function QueryByCountry(db: Db, country: string): (r: Option<set<Row>>)
    ensures r.Some? <==> db.Table?
    ensures r.Some? ==> forall row :: row in r.value <==> row in FetchRecords(db).value && row.country == Text(country)
  {
    match db
    case NoTable => None
    case Table(rows) =>
      var hits := set k | k in rows && rows[k].country == Text(country) :: rows[k];
      forall row | row in rows.Values && row.country == Text(country)
        ensures row in hits
      {
        var k :| k in rows && rows[k] == row;
      }
      Some(hits)
  }

  /** The Country column of a fetched tuple is the row's country. */
  lemma CountryColumn(row: Row)
    ensures |SelectColumns(row)| == Columns && SelectColumns(row)[2] == row.country
    ensures RowOfColumns(SelectColumns(row)) == row
  {
  }

  // ---------------------------------------------------------------------------
  // Storing a ShippingTariff
  // ---------------------------------------------------------------------------

  /** `values()` has ten components, one short of the eleven parameters of
      the insert statement, so storing it directly always fails and leaves
      the table as it was. */
  lemma ValuesNeverInsert(db: Db, t: TariffModels.ShippingTariff)
    ensures !InsertRecord(db, TariffModels.Values(t)).ok
    ensures InsertRecord(db, TariffModels.Values(t)).db == db
  {
  }

  /** Storing a tariff under a `doc_id`: its ten values followed by the key,
      the order the insert statement binds them in. */
  function InsertTariff(db: Db, t: TariffModels.ShippingTariff, docId: Value): (r: Stored)
    requires docId != Null
    ensures r.ok <==> db.Table? && Bindable(docId) && Int64(t.freeDays)
                      && (t.bucket1.Some? ==> Int64(t.bucket1.value))
                      && (t.bucket2.Some? ==> Int64(t.bucket2.value))
                      && (t.bucket3.Some? ==> Int64(t.bucket3.value))
    ensures r.ok ==> r.db.Table? && docId in r.db.rows && BindingOrder(r.db.rows[docId]) == TariffModels.Values(t) + [docId]
    ensures r.ok ==> TariffModels.FromValues(BindingOrder(r.db.rows[docId])[..10]) == Some(t)
  {
    var data := TariffModels.Values(t) + [docId];
    var r := InsertRecord(db, data);
    if r.ok then
      assert data[..10] == TariffModels.Values(t);
      TariffModels.ValuesRoundTrip(t);
      r
    else r
  }
}
