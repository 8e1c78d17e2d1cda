/** The SQLite file `results_sync.db` as the sync engine sees it: the three
    tables it writes (summary, detail, route), the constraints that make an
    insert fail, and a Database class whose methods stand for the statements
    the engine executes through its cursor. */
module Store {
  import opened Json

  /** One row of `smashrun_activities_route`; the surrogate key is left out. */
  datatype RouteRow = RouteRow(
    activityId: Json, idx: int,
    distance: Json, latitude: Json, longitude: Json,
    elevation: Json, heartRate: Json, clock: Json)

  /** One row of `smashrun_activities_details`: the columns the insert named,
      each with its value, in statement order. */
  type Detail = seq<(string, Json)>

  /** The rows of the three tables, each table in insertion order. */
  datatype Tables = Tables(summary: seq<Json>, details: seq<Detail>, route: seq<RouteRow>)

  /** A UNIQUE column rejects a value another row already holds; NULLs never
      clash with each other. */
  predicate Taken(column: seq<Json>, v: Json) {
    v != JNull && v in column
  }

  /** `INSERT INTO smashrun_activities (activity_id) VALUES (?)` succeeds. */
  predicate SummaryAccepts(t: Tables, id: Json) {
    Bindable(id) && !Taken(t.summary, id)
  }

  /** The value a detail row holds in its unique `activityId` column. */
  function DetailKey(d: Detail): Json {
    match Get(d, "activityId")
    case Some(v) => v
    case None => JNull
  }

  predicate DetailTaken(t: Tables, d: Detail) {
    DetailKey(d) != JNull &&
    exists i :: 0 <= i < |t.details| && DetailKey(t.details[i]) == DetailKey(d)
  }

  /** The detail insert succeeds: as many columns as `?` placeholders (an
      empty list is a syntax error), every value bindable, and no other row
      with the same activityId. */
  predicate FieldsAccepted(t: Tables, fields: Detail, placeholders: nat) {
    && |fields| == placeholders
    && placeholders > 0
    && (forall i :: 0 <= i < |fields| ==> Bindable(fields[i].1))
    && !DetailTaken(t, fields)
  }

  function Zip<A, B>(a: seq<A>, b: seq<B>): (r: seq<(A, B)>)
    requires |a| == |b|
    ensures |r| == |a| && forall i :: 0 <= i < |a| ==> r[i] == (a[i], b[i])
  {
    seq(|a|, i requires 0 <= i < |a| => (a[i], b[i]))
  }

  /** The detail insert built from a column list, a value tuple and a
      placeholder count succeeds. */
  predicate DetailAccepts(t: Tables, columns: seq<string>, values: seq<Json>, placeholders: nat) {
    |columns| == |values| && FieldsAccepted(t, Zip(columns, values), placeholders)
  }

  /** The route insert succeeds when all eight parameters are bindable
      (the table has no constraint a row can break). */
  predicate RouteAccepts(row: RouteRow) {
    && Bindable(row.activityId) && Bindable(row.distance) && Bindable(row.latitude)
    && Bindable(row.longitude) && Bindable(row.elevation) && Bindable(row.heartRate)
    && Bindable(row.clock)
  }

  /** `t2` holds every row of `t1`, in the same places: rows are only ever
      appended, never updated or deleted. */
  predicate Grows(t1: Tables, t2: Tables) {
    && t1.summary <= t2.summary
    && t1.details <= t2.details
    && t1.route <= t2.route
  }

  /** An activity id in the detail or route table is also in the summary
      table. */
  predicate Consistent(t: Tables) {
    && (forall i :: 0 <= i < |t.details| ==> DetailKey(t.details[i]) in t.summary)
    && (forall i :: 0 <= i < |t.route| ==> t.route[i].activityId in t.summary)
  }

  /** The database file: whether its schema exists, and the rows of its
      three tables. */
  class Database {
    var schema: bool
    var summary: seq<Json>
    var details: seq<Detail>
    var route: seq<RouteRow>

    function Rows(): Tables
      reads this
    {
      Tables(summary, details, route)
    }

    /** A file holding the given rows. */
    constructor (rows: Tables, schema: bool)
      ensures Rows() == rows && this.schema == schema
    {
      this.schema := schema;
      summary, details, route := rows.summary, rows.details, rows.route;
    }

    /** The three `CREATE TABLE IF NOT EXISTS` statements: the schema exists
      afterwards and no row changes. */
    method CreateTables()
      modifies this`schema
      ensures schema && Rows() == old(Rows())
    {
      schema := true;
    }

    /** `SELECT * FROM smashrun_activities where activity_id=id` finds a row. */
    method Contains(id: int) returns (found: bool)
      ensures found <==> JNum(id as real) in summary
    {
      found := JNum(id as real) in summary;
    }

    method InsertSummary(id: Json) returns (ok: bool)
      modifies this`summary
      ensures ok == SummaryAccepts(old(Rows()), id)
      ensures summary == if ok then old(summary) + [id] else old(summary)
    {
      ok := SummaryAccepts(Rows(), id);
      if ok {
        summary := summary + [id];
      }
    }

    method InsertDetail(columns: seq<string>, values: seq<Json>, placeholders: nat) returns (ok: bool)
      modifies this`details
      ensures ok == DetailAccepts(old(Rows()), columns, values, placeholders)
      ensures details == if ok then old(details) + [Zip(columns, values)] else old(details)
    {
      ok := DetailAccepts(Rows(), columns, values, placeholders);
      if ok {
        details := details + [Zip(columns, values)];
      }
    }

    method InsertRoute(row: RouteRow) returns (ok: bool)
      modifies this`route
      ensures ok == RouteAccepts(row)
      ensures route == if ok then old(route) + [row] else old(route)
    {
      ok := RouteAccepts(row);
      if ok {
        route := route + [row];
      }
    }
  }
}
