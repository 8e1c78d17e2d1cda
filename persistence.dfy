/** Per-activity persistence (`Smashrun.storeActivity`) as a function of the
    payload and the tables before the call: the rows it leaves and what it
    returns or raises.  The method that executes it step by step is
    SmashrunClient.Smashrun.StoreActivity. */
module Persistence {
  import opened Json
  import opened Store
  import Delta

  /** Payload keys that never become detail columns. */
  const IgnoredKeys: seq<string> :=
    ["recordingKeys", "recordingValues", "pauseIndexes", "laps", "songs", "heartRateRecovery"]

  /** Keys the skip message formats when an activity has no GPS data. */
  const SkipLogKeys: seq<string> := ["activityId", "dateCreatedUTC", "distance"]

  /** The route columns, in the order a route row lists them. */
  const RouteFields: seq<string> := ["distance", "latitude", "longitude", "elevation", "heartRate", "clock"]

  /** What one call does: its Python outcome and the tables afterwards. */
  datatype Effect = Effect(ret: Ret<bool>, rows: Tables)

  // ---------------------------------------------------------------- detail

  /** The payload entries that become detail columns, in payload order. */
  function DetailEntries(a: seq<(string, Json)>): Detail {
    if a == [] then []
    else (if a[0].0 in IgnoredKeys then [] else [a[0]]) + DetailEntries(a[1..])
  }

  /** The number of `?` the statement gets: `len(activity) - len(ignoredKeys)`,
      and none when that is not positive (`range` is then empty). */
  function Placeholders(a: seq<(string, Json)>): nat {
    if |a| >= |IgnoredKeys| then |a| - |IgnoredKeys| else 0
  }

  lemma {:induction false} DetailEntriesConcat(a: seq<(string, Json)>, b: seq<(string, Json)>)
    ensures DetailEntries(a + b) == DetailEntries(a) + DetailEntries(b)
  {
    if a == [] {
      assert a + b == b;
    } else {
      assert (a + b)[1..] == a[1..] + b;
      DetailEntriesConcat(a[1..], b);
    }
  }

  /** Looking a non-ignored key up in the detail row finds what the payload
      holds for it. */
  lemma {:induction false} DetailGet(a: seq<(string, Json)>, k: string)
    requires k !in IgnoredKeys
    ensures Get(DetailEntries(a), k) == Get(a, k)
  {
    if a != [] {
      var rest := DetailEntries(a[1..]);
      DetailGet(a[1..], k);
      if a[0].0 in IgnoredKeys {
        assert DetailEntries(a) == rest;
        assert a[0].0 != k;
      } else {
        var d := [a[0]] + rest;
        assert DetailEntries(a) == d;
        assert d[0] == a[0];
        if a[0].0 != k {
          assert d[1..] == rest;
        }
      }
    }
  }

  /** Every detail entry is a payload entry under a key that is not ignored. */
  lemma {:induction false} DetailMembers(a: seq<(string, Json)>)
    ensures forall i :: 0 <= i < |DetailEntries(a)| ==>
      DetailEntries(a)[i] in a && DetailEntries(a)[i].0 !in IgnoredKeys
  {
    if a != [] {
      DetailMembers(a[1..]);
      var d := DetailEntries(a);
      var dt := DetailEntries(a[1..]);
      assert a == [a[0]] + a[1..];
      if a[0].0 !in IgnoredKeys {
        assert d == [a[0]] + dt;
        forall i | 0 < i < |d| ensures d[i] in a {
          assert d[i] == dt[i - 1];
        }
      } else {
        assert d == dt;
      }
    }
  }

  /** The detail row of a dict has each column once. */
  lemma {:induction false} DetailDistinct(a: JsonObject)
    ensures DistinctKeys(DetailEntries(a))
  {
    if a != [] {
      var tail: JsonObject := a[1..];
      DetailDistinct(tail);
      DetailMembers(tail);
      var d := DetailEntries(a);
      var dt := DetailEntries(tail);
      if a[0].0 !in IgnoredKeys {
        assert d == [a[0]] + dt;
        forall i | 0 < i < |d| ensures d[i].0 != a[0].0 {
          assert d[i] == dt[i - 1];
          var j :| 0 <= j < |tail| && tail[j] == dt[i - 1];
          assert a[j + 1] == tail[j];
        }
        forall i, j | 0 <= i < j < |d| ensures d[i].0 != d[j].0 {
          if i > 0 {
            assert d[i] == dt[i - 1] && d[j] == dt[j - 1];
          }
        }
      } else {
        assert d == dt;
      }
    }
  }

  /** Detail completeness: the columns are exactly the payload keys outside
      the ignored ones, each exactly once, each with the payload's value. */
  lemma DetailColumns(a: JsonObject)
    ensures DistinctKeys(DetailEntries(a))
    ensures forall k :: HasKey(DetailEntries(a), k) <==> HasKey(a, k) && k !in IgnoredKeys
    ensures forall i :: 0 <= i < |DetailEntries(a)| ==>
      DetailEntries(a)[i].0 !in IgnoredKeys && Get(a, DetailEntries(a)[i].0) == Some(DetailEntries(a)[i].1)
  {
    var d := DetailEntries(a);
    DetailDistinct(a);
    DetailMembers(a);
    forall k ensures HasKey(d, k) <==> HasKey(a, k) && k !in IgnoredKeys {
      if k !in IgnoredKeys {
        DetailGet(a, k);
      }
    }
    forall i | 0 <= i < |d| ensures Get(a, d[i].0) == Some(d[i].1) {
      var j :| 0 <= j < |a| && a[j] == d[i];
      GetEntry(a, j);
    }
  }

  /** Entries of `a` whose key is one of `keys`. */
  function CountIn(a: seq<(string, Json)>, keys: seq<string>): nat {
    if a == [] then 0 else (if a[0].0 in keys then 1 else 0) + CountIn(a[1..], keys)
  }

  function Present(a: seq<(string, Json)>, keys: seq<string>): nat {
    if keys == [] then 0 else (if HasKey(a, keys[0]) then 1 else 0) + Present(a, keys[1..])
  }

  lemma {:induction false} DetailPlusIgnored(a: seq<(string, Json)>)
    ensures |DetailEntries(a)| + CountIn(a, IgnoredKeys) == |a|
  {
    if a != [] {
      DetailPlusIgnored(a[1..]);
    }
  }

  /** In a dict, a key occurs once if present and not at all otherwise. */
  lemma {:induction false} CountOne(a: JsonObject, k: string)
    ensures CountIn(a, [k]) == if HasKey(a, k) then 1 else 0
  {
    if a != [] {
      var tail: JsonObject := a[1..];
      CountOne(tail, k);
    }
  }

  lemma {:induction false} CountSplit(a: seq<(string, Json)>, k: string, rest: seq<string>)
    requires k !in rest
    ensures CountIn(a, [k] + rest) == CountIn(a, [k]) + CountIn(a, rest)
  {
    if a != [] {
      CountSplit(a[1..], k, rest);
    }
  }

  /** With distinct `keys`, the entries carrying one of them number the keys
      that are present. */
  lemma {:induction false} CountPresent(a: JsonObject, keys: seq<string>)
    requires forall i, j :: 0 <= i < j < |keys| ==> keys[i] != keys[j]
    ensures CountIn(a, keys) == Present(a, keys)
    ensures Present(a, keys) == |keys| <==> forall k :: k in keys ==> HasKey(a, k)
    ensures Present(a, keys) <= |keys|
  {
    if keys == [] {
      CountZero(a);
    } else {
      var rest := keys[1..];
      assert keys == [keys[0]] + rest;
      CountPresent(a, rest);
      CountSplit(a, keys[0], rest);
      CountOne(a, keys[0]);
    }
  }

  lemma {:induction false} CountZero(a: seq<(string, Json)>)
    ensures CountIn(a, []) == 0
  {
    if a != [] {
      CountZero(a[1..]);
    }
  }

  /** The detail statement's column and placeholder counts agree exactly when
      all six ignored keys are in the payload. */
  lemma DetailArity(a: JsonObject)
    requires HasKey(a, "activityId")
    ensures |DetailEntries(a)| == Placeholders(a) <==> forall k :: k in IgnoredKeys ==> HasKey(a, k)
  {
    DetailPlusIgnored(a);
    CountPresent(a, IgnoredKeys);
    DetailColumns(a);
    assert HasKey(DetailEntries(a), "activityId");
  }

  // ----------------------------------------------------------------- route

  /** The last position of `name` in `keys`, or -1 when it never occurs: what
      the index-discovery loop leaves in that field's variable. */
  function LastIndex(keys: seq<Json>, name: string): int {
    if keys == [] then -1
    else if keys[|keys| - 1] == JText(name) then |keys| - 1
    else LastIndex(keys[..|keys| - 1], name)
  }

  lemma {:induction false} LastIndexSpec(keys: seq<Json>, name: string)
    ensures var r := LastIndex(keys, name);
      && -1 <= r < |keys|
      && (r == -1 <==> JText(name) !in keys)
      && (r >= 0 ==> keys[r] == JText(name))
      && forall j :: r < j < |keys| ==> keys[j] != JText(name)
  {
    if keys != [] && keys[|keys| - 1] != JText(name) {
      var init := keys[..|keys| - 1];
      LastIndexSpec(init, name);
      assert keys == init + [keys[|keys| - 1]];
    }
  }

  /** The column index of each route field in `recordingValues`. */
  datatype FieldIndices = FieldIndices(
    distance: int, latitude: int, longitude: int,
    elevation: int, heartRate: int, clock: int)
  {
    function InOrder(): seq<int> {
      [distance, latitude, longitude, elevation, heartRate, clock]
    }
  }

  function Indices(keys: seq<Json>): FieldIndices {
    FieldIndices(
      LastIndex(keys, "distance"), LastIndex(keys, "latitude"), LastIndex(keys, "longitude"),
      LastIndex(keys, "elevation"), LastIndex(keys, "heartRate"), LastIndex(keys, "clock"))
  }

  /** When every route field is named in `recordingKeys`, every index points
      at one of its positions and none stays -1. */
  lemma AllFieldsFound(keys: seq<Json>)
    requires forall f :: f in RouteFields ==> JText(f) in keys
    ensures forall i :: 0 <= i < 6 ==> 0 <= Indices(keys).InOrder()[i] < |keys|
  {
    forall f | f in RouteFields ensures 0 <= LastIndex(keys, f) < |keys| {
      LastIndexSpec(keys, f);
    }
    assert forall i :: 0 <= i < 6 ==> Indices(keys).InOrder()[i] == LastIndex(keys, RouteFields[i]);
  }

  /** `recordingValues[i][x]`. */
  function Cell(outer: seq<Json>, i: int, x: nat): Ret<Json> {
    match PyIndex(outer, i)
    case None => Raised(IndexError)
    case Some(column) =>
      match AsSeq(column)
      case None => Raised(TypeError)
      case Some(samples) =>
        match PyIndex(samples, x)
        case None => Raised(IndexError)
        case Some(v) => Returned(v)
  }

  /** A present field reads sample x of its own column; an absent one (index
      -1) reads sample x of the last column. */
  lemma CellReads(outer: seq<Json>, i: int, x: nat)
    requires -1 <= i < |outer| && outer != []
    ensures var c := if i == -1 then |outer| - 1 else i;
      Cell(outer, i, x) == match AsSeq(outer[c])
        case None => Raised(TypeError)
        case Some(samples) => if x < |samples| then Returned(samples[x]) else Raised(IndexError)
  {
  }

  /** `recordingValues[i][x]` for each index, left to right, stopping at the
      first that raises. */
  function Cells(outer: seq<Json>, idxs: seq<int>, x: nat): (r: Ret<seq<Json>>)
    ensures r.Returned? ==> |r.value| == |idxs|
  {
    if idxs == [] then Returned([])
    else match Cell(outer, idxs[0], x)
      case Raised(e) => Raised(e)
      case Returned(v) =>
        match Cells(outer, idxs[1..], x)
        case Raised(e) => Raised(e)
        case Returned(vs) => Returned([v] + vs)
  }

  /** The six reads all succeed exactly when each one does, and then give
      the values position by position. */
  lemma {:induction false} CellsSpec(outer: seq<Json>, idxs: seq<int>, x: nat)
    ensures var r := Cells(outer, idxs, x);
      && (r.Returned? <==> forall k :: 0 <= k < |idxs| ==> Cell(outer, idxs[k], x).Returned?)
      && (r.Returned? ==>
            |r.value| == |idxs| && forall k :: 0 <= k < |idxs| ==> r.value[k] == Cell(outer, idxs[k], x).value)
  {
    if idxs != [] {
      CellsSpec(outer, idxs[1..], x);
      assert forall k :: 0 < k < |idxs| ==> idxs[1..][k - 1] == idxs[k];
    }
  }

  /** The parameters of route row x. */
  function RouteRowAt(id: Json, outer: seq<Json>, ix: FieldIndices, x: nat): Ret<RouteRow> {
    match Cells(outer, ix.InOrder(), x)
    case Raised(e) => Raised(e)
    case Returned(c) => Returned(RouteRow(id, x, c[0], c[1], c[2], c[3], c[4], c[5]))
  }

  /** Inserting route rows x .. n-1 one at a time: an exception raised while
      building a row escapes, a failing insert returns False, and rows
      already inserted stay. */
  function RouteLoop(id: Json, outer: seq<Json>, ix: FieldIndices, x: nat, n: nat, t: Tables): Effect
    decreases n - x
  {
    if x >= n then Effect(Returned(true), t)
    else match RouteRowAt(id, outer, ix, x)
      case Raised(e) => Effect(Raised(e), t)
      case Returned(row) =>
        if RouteAccepts(row) then RouteLoop(id, outer, ix, x + 1, n, t.(route := t.route + [row]))
        else Effect(Returned(false), t)
  }

  /** The route loop only appends to the route table, at most one row per
      sample, and returns True exactly when it added all n - x rows. */
  lemma {:induction false} RouteLoopGrows(id: Json, outer: seq<Json>, ix: FieldIndices, x: nat, n: nat, t: Tables)
    requires x <= n
    ensures var e := RouteLoop(id, outer, ix, x, n, t);
      && e.rows.summary == t.summary && e.rows.details == t.details
      && |t.route| <= |e.rows.route| <= |t.route| + (n - x)
      && e.rows.route[..|t.route|] == t.route
      && (e.ret == Returned(true) <==> |e.rows.route| == |t.route| + (n - x))
    decreases n - x
  {
    if x < n {
      match RouteRowAt(id, outer, ix, x)
      case Raised(_) =>
      case Returned(row) =>
        if RouteAccepts(row) {
          var t' := t.(route := t.route + [row]);
          RouteLoopGrows(id, outer, ix, x + 1, n, t');
          var e := RouteLoop(id, outer, ix, x + 1, n, t');
          assert e.rows.route[..|t.route|] == e.rows.route[..|t'.route|][..|t.route|];
        }
    }
  }

  /** `rows` are route rows x, x + 1, ... of activity `id`, each built from
      its own sample. */
  predicate BuiltFrom(id: Json, outer: seq<Json>, ix: FieldIndices, x: nat, rows: seq<RouteRow>) {
    forall k :: 0 <= k < |rows| ==>
      && rows[k].idx == x + k && rows[k].activityId == id
      && RouteRowAt(id, outer, ix, x + k) == Returned(rows[k]) && RouteAccepts(rows[k])
  }

  lemma BuiltFromCons(id: Json, outer: seq<Json>, ix: FieldIndices, x: nat, row: RouteRow, rest: seq<RouteRow>)
    requires row.idx == x && row.activityId == id && RouteRowAt(id, outer, ix, x) == Returned(row)
    requires RouteAccepts(row)
    requires BuiltFrom(id, outer, ix, x + 1, rest)
    ensures BuiltFrom(id, outer, ix, x, [row] + rest)
  {
    var rows := [row] + rest;
    forall k | 0 < k < |rows| ensures rows[k] == rest[k - 1] {
    }
  }

  /** The rows the loop adds are rows x, x + 1, ... built from their own
      samples. */
  lemma {:induction false} RouteLoopBuilt(id: Json, outer: seq<Json>, ix: FieldIndices, x: nat, n: nat, t: Tables)
    requires x <= n
    ensures var r := RouteLoop(id, outer, ix, x, n, t).rows.route;
      |t.route| <= |r| && BuiltFrom(id, outer, ix, x, r[|t.route|..])
    decreases n - x
  {
    var rr := RouteRowAt(id, outer, ix, x);
    if x < n && rr.Returned? && RouteAccepts(rr.value) {
      var row := rr.value;
      var t' := t.(route := t.route + [row]);
      assert RouteLoop(id, outer, ix, x, n, t) == RouteLoop(id, outer, ix, x + 1, n, t');
      RouteLoopBuilt(id, outer, ix, x + 1, n, t');
      RouteLoopGrows(id, outer, ix, x + 1, n, t');
      var r := RouteLoop(id, outer, ix, x + 1, n, t').rows.route;
      assert r[..|t'.route|] == t'.route;
      assert r[|t.route|..] == [row] + r[|t'.route|..];
      BuiltFromCons(id, outer, ix, x, row, r[|t'.route|..]);
    } else {
      assert RouteLoop(id, outer, ix, x, n, t).rows == t;
    }
  }

  /** Row `y` of a loop that started at x could not be added: building it
      raised `e.ret`'s exception, or the insert rejected it and the loop
      returned False. */
  predicate StoppedAt(id: Json, outer: seq<Json>, ix: FieldIndices, y: nat, e: Effect) {
    match RouteRowAt(id, outer, ix, y)
    case Raised(exc) => e.ret == Raised(exc)
    case Returned(row) => !RouteAccepts(row) && e.ret == Returned(false)
  }

  /** The loop stops early only at the first row it could not add: the row
      right after the added ones. */
  lemma {:induction false} RouteLoopStop(id: Json, outer: seq<Json>, ix: FieldIndices, x: nat, n: nat, t: Tables)
    requires x <= n
    ensures var e := RouteLoop(id, outer, ix, x, n, t);
      var y := x + (|e.rows.route| - |t.route|);
      |t.route| <= |e.rows.route| && (y < n ==> StoppedAt(id, outer, ix, y, e))
    decreases n - x
  {
    var rr := RouteRowAt(id, outer, ix, x);
    if x < n && rr.Returned? && RouteAccepts(rr.value) {
      var t' := t.(route := t.route + [rr.value]);
      assert RouteLoop(id, outer, ix, x, n, t) == RouteLoop(id, outer, ix, x + 1, n, t');
      RouteLoopStop(id, outer, ix, x + 1, n, t');
    } else {
      assert RouteLoop(id, outer, ix, x, n, t).rows == t;
    }
  }

  /** Rows x .. (x + the number added - 1) are appended in index order, each
      built from its own sample and accepted by the insert; the other tables
      are left alone; the loop returns True exactly when it added all n - x
      rows, and otherwise it stopped at the next row, which raised or was
      rejected. */
  lemma RouteLoopRows(id: Json, outer: seq<Json>, ix: FieldIndices, x: nat, n: nat, t: Tables)
    requires x <= n
    ensures var e := RouteLoop(id, outer, ix, x, n, t);
      && e.rows.summary == t.summary && e.rows.details == t.details
      && |t.route| <= |e.rows.route| <= |t.route| + (n - x)
      && e.rows.route[..|t.route|] == t.route
      && BuiltFrom(id, outer, ix, x, e.rows.route[|t.route|..])
      && (e.ret == Returned(true) <==> |e.rows.route| == |t.route| + (n - x))
      && (|e.rows.route| < |t.route| + (n - x) ==>
            StoppedAt(id, outer, ix, x + (|e.rows.route| - |t.route|), e))
  {
    RouteLoopGrows(id, outer, ix, x, n, t);
    RouteLoopBuilt(id, outer, ix, x, n, t);
    RouteLoopStop(id, outer, ix, x, n, t);
  }

  /** When every row x .. n-1 can be built and bound, the loop adds all of
      them and returns True. */
  lemma RouteLoopSucceeds(id: Json, outer: seq<Json>, ix: FieldIndices, x: nat, n: nat, t: Tables)
    requires x <= n
    requires forall y :: x <= y < n ==>
      RouteRowAt(id, outer, ix, y).Returned? && RouteAccepts(RouteRowAt(id, outer, ix, y).value)
    ensures var e := RouteLoop(id, outer, ix, x, n, t);
      e.ret == Returned(true) && |e.rows.route| == |t.route| + (n - x)
  {
    RouteLoopRows(id, outer, ix, x, n, t);
  }

  // ------------------------------------------------------------ the whole

  /** The inputs of the route stage, looked up in Python's order: iterating
      `recordingKeys`, then sizing the loop by `len(recordingValues[0])`. */
  datatype RouteInput = RouteInput(keys: seq<Json>, outer: seq<Json>, samples: nat)

  function RouteInputs(a: JsonObject): Ret<RouteInput> {
    match Get(a, "recordingKeys")
    case None => Raised(KeyError("recordingKeys"))
    case Some(rk) =>
      match AsSeq(rk)
      case None => Raised(TypeError)
      case Some(keys) =>
        match Get(a, "recordingValues")
        case None => Raised(KeyError("recordingValues"))
        case Some(rv) =>
          match AsSeq(rv)
          case None => Raised(TypeError)
          case Some(outer) =>
            match PyIndex(outer, 0)
            case None => Raised(IndexError)
            case Some(first) =>
              match AsSeq(first)
              case None => Raised(TypeError)
              case Some(samples) => Returned(RouteInput(keys, outer, |samples|))
  }

  function RouteStage(a: JsonObject, id: Json, t: Tables): Effect {
    match RouteInputs(a)
    case Raised(e) => Effect(Raised(e), t)
    case Returned(ri) => RouteLoop(id, ri.outer, Indices(ri.keys), 0, ri.samples, t)
  }

  /** The summary insert; its failure is swallowed and leaves the tables. */
  function SummaryInsert(t: Tables, id: Json): Tables {
    if SummaryAccepts(t, id) then t.(summary := t.summary + [id]) else t
  }

  /** After the summary insert: the detail insert, then the route. */
  function DetailAndRoute(a: JsonObject, id: Json, t: Tables): Effect {
    var fields := DetailEntries(a);
    if FieldsAccepted(t, fields, Placeholders(a)) then
      RouteStage(a, id, t.(details := t.details + [fields]))
    else Effect(Returned(false), t)
  }

  /** `storeActivity(activity)` run against tables `t`. */
  function StoreSpec(a: JsonObject, t: Tables): Effect {
    match Get(a, "hasDetailsGPS")
    case None => Effect(Raised(KeyError("hasDetailsGPS")), t)
    case Some(gps) =>
      if EqualsZero(gps) then
        match FirstMissing(a, SkipLogKeys)
        case Some(k) => Effect(Raised(KeyError(k)), t)
        case None => Effect(Returned(false), t)
      else
        match Get(a, "activityId")
        case None => Effect(Raised(KeyError("activityId")), t)
        case Some(id) => DetailAndRoute(a, id, SummaryInsert(t, id))
  }

  predicate HasGps(a: JsonObject) {
    HasKey(a, "hasDetailsGPS") && !EqualsZero(Get(a, "hasDetailsGPS").value)
  }

  /** GPS gating: an activity whose hasDetailsGPS equals 0 writes no row and
      never returns True. */
  lemma GpsGate(a: JsonObject, t: Tables)
    requires HasKey(a, "hasDetailsGPS") && EqualsZero(Get(a, "hasDetailsGPS").value)
    ensures StoreSpec(a, t).rows == t
    ensures StoreSpec(a, t).ret == if forall k :: k in SkipLogKeys ==> HasKey(a, k)
      then Returned(false) else Raised(KeyError(FirstMissing(a, SkipLogKeys).value))
  {
  }

  lemma RouteStageRows(a: JsonObject, id: Json, t: Tables)
    ensures var e := RouteStage(a, id, t);
      && e.rows.summary == t.summary && e.rows.details == t.details
      && t.route <= e.rows.route
      && (forall k :: |t.route| <= k < |e.rows.route| ==>
            && e.rows.route[k].activityId == id && e.rows.route[k].idx == k - |t.route|
            && RouteAccepts(e.rows.route[k]))
      && (e.ret == Returned(true) <==>
            RouteInputs(a).Returned? && |e.rows.route| == |t.route| + RouteInputs(a).value.samples)
      && (RouteInputs(a).Raised? ==> e == Effect(Raised(RouteInputs(a).exc), t))
      && (RouteInputs(a).Returned? && |e.rows.route| < |t.route| + RouteInputs(a).value.samples ==>
            StoppedAt(id, RouteInputs(a).value.outer, Indices(RouteInputs(a).value.keys),
                      |e.rows.route| - |t.route|, e))
  {
    match RouteInputs(a)
    case Raised(_) =>
    case Returned(ri) => RouteLoopRows(id, ri.outer, Indices(ri.keys), 0, ri.samples, t);
  }

  /** Rows are only appended. */
  lemma StoreOnlyAppends(a: JsonObject, t: Tables)
    ensures Grows(t, StoreSpec(a, t).rows)
  {
    if HasGps(a) && HasKey(a, "activityId") {
      var id := Get(a, "activityId").value;
      var t1 := SummaryInsert(t, id);
      if FieldsAccepted(t1, DetailEntries(a), Placeholders(a)) {
        RouteStageRows(a, id, t1.(details := t1.details + [DetailEntries(a)]));
      }
    }
  }

  /** Failure effects.  Past the GPS gate with an activityId: the summary
      insert's outcome is kept either way; a rejected detail insert returns
      False with no detail and no route row; otherwise the detail row is
      added and route rows 0, 1, ... follow, all of them exactly when the
      call returns True. */
  lemma StoreRows(a: JsonObject, t: Tables)
    requires HasGps(a) && HasKey(a, "activityId")
    ensures var id := Get(a, "activityId").value;
      var t1 := SummaryInsert(t, id);
      var e := StoreSpec(a, t);
      && e.rows.summary == t1.summary
      && (!FieldsAccepted(t1, DetailEntries(a), Placeholders(a)) ==>
            e == Effect(Returned(false), t1))
      && (FieldsAccepted(t1, DetailEntries(a), Placeholders(a)) ==>
            && e.rows.details == t.details + [DetailEntries(a)]
            && t.route <= e.rows.route
            && (forall k :: |t.route| <= k < |e.rows.route| ==>
                  && e.rows.route[k].activityId == id && e.rows.route[k].idx == k - |t.route|
                  && RouteAccepts(e.rows.route[k]))
            && (e.ret == Returned(true) <==>
                  RouteInputs(a).Returned? && |e.rows.route| == |t.route| + RouteInputs(a).value.samples))
  {
    var id := Get(a, "activityId").value;
    var t1 := SummaryInsert(t, id);
    if FieldsAccepted(t1, DetailEntries(a), Placeholders(a)) {
      RouteStageRows(a, id, t1.(details := t1.details + [DetailEntries(a)]));
    }
  }

  /** A well-formed recording: every route field named in `recordingKeys`,
      one column per key, and every column a list of `samples` values that
      sqlite3 can bind. */
  predicate WellFormedRecording(ri: RouteInput) {
    && (forall f :: f in RouteFields ==> JText(f) in ri.keys)
    && |ri.outer| == |ri.keys|
    && forall c :: 0 <= c < |ri.outer| ==>
         && ri.outer[c].JList? && |ri.outer[c].items| == ri.samples
         && forall v :: v in ri.outer[c].items ==> Bindable(v)
  }

  /** In a well-formed recording every sample index gives a route row the
      insert accepts. */
  lemma RouteRowBuilds(id: Json, ri: RouteInput, y: nat)
    requires WellFormedRecording(ri) && Bindable(id) && y < ri.samples
    ensures var rr := RouteRowAt(id, ri.outer, Indices(ri.keys), y);
      rr.Returned? && RouteAccepts(rr.value)
  {
    var idxs := Indices(ri.keys).InOrder();
    AllFieldsFound(ri.keys);
    forall k | 0 <= k < 6
      ensures Cell(ri.outer, idxs[k], y) == Returned(ri.outer[idxs[k]].items[y])
      ensures Bindable(ri.outer[idxs[k]].items[y])
    {
      assert ri.outer[idxs[k]].items[y] in ri.outer[idxs[k]].items;
    }
    CellsSpec(ri.outer, idxs, y);
  }

  /** The complete store: an activity with GPS data, an id the summary table
      does not hold yet, all six ignored keys, bindable detail values and a
      well-formed recording of n samples returns True and writes one summary
      row, one detail row and n route rows. */
  lemma StoreSucceeds(a: JsonObject, t: Tables, id: Json)
    requires Consistent(t)
    requires HasGps(a) && Get(a, "activityId") == Some(id) && SummaryAccepts(t, id)
    requires forall k :: k in IgnoredKeys ==> HasKey(a, k)
    requires forall i :: 0 <= i < |a| && a[i].0 !in IgnoredKeys ==> Bindable(a[i].1)
    requires RouteInputs(a).Returned? && WellFormedRecording(RouteInputs(a).value)
    ensures var e := StoreSpec(a, t);
      && e.ret == Returned(true)
      && e.rows.summary == t.summary + [id]
      && e.rows.details == t.details + [DetailEntries(a)]
      && |e.rows.route| == |t.route| + RouteInputs(a).value.samples
  {
    var t1 := SummaryInsert(t, id);
    var fields := DetailEntries(a);
    DetailArity(a);
    DetailColumns(a);
    DetailMembers(a);
    DetailGet(a, "activityId");
    forall i | 0 <= i < |fields| ensures Bindable(fields[i].1) {
      var j :| 0 <= j < |a| && a[j] == fields[i];
    }
    assert DetailKey(fields) == id;
    assert !DetailTaken(t1, fields) by {
      if id != JNull {
        forall i | 0 <= i < |t1.details| ensures DetailKey(t1.details[i]) != id {
          assert DetailKey(t.details[i]) in t.summary;
        }
      }
    }
    assert FieldsAccepted(t1, fields, Placeholders(a));
    var t2 := t1.(details := t1.details + [fields]);
    var ri := RouteInputs(a).value;
    forall y | 0 <= y < ri.samples ensures
      RouteRowAt(id, ri.outer, Indices(ri.keys), y).Returned? &&
      RouteAccepts(RouteRowAt(id, ri.outer, Indices(ri.keys), y).value)
    {
      RouteRowBuilds(id, ri, y);
    }
    RouteLoopSucceeds(id, ri.outer, Indices(ri.keys), 0, ri.samples, t2);
    RouteLoopRows(id, ri.outer, Indices(ri.keys), 0, ri.samples, t2);
  }

  /** Only an activity with GPS data, an activityId and all six ignored keys
      can be stored successfully. */
  lemma StoredNeedsAllIgnoredKeys(a: JsonObject, t: Tables)
    requires StoreSpec(a, t).ret == Returned(true)
    ensures HasGps(a) && HasKey(a, "activityId")
    ensures forall k :: k in IgnoredKeys ==> HasKey(a, k)
  {
    DetailArity(a);
  }

  /** Past the GPS gate, an activity whose activityId is `x` leaves `x` in the
      summary table whatever happens afterwards. */
  lemma StoreMarksSeen(a: JsonObject, t: Tables, x: int)
    requires HasGps(a) && Get(a, "activityId") == Some(JNum(x as real))
    ensures Delta.Stored(StoreSpec(a, t).rows.summary, x)
  {
    StoreRows(a, t);
  }

  /** Every activity id in the detail or route table stays in the summary
      table. */
  lemma StorePreservesConsistency(a: JsonObject, t: Tables)
    requires Consistent(t)
    ensures Consistent(StoreSpec(a, t).rows)
  {
    if HasGps(a) && HasKey(a, "activityId") {
      var id := Get(a, "activityId").value;
      var t1 := SummaryInsert(t, id);
      var fields := DetailEntries(a);
      assert Consistent(t1);
      if FieldsAccepted(t1, fields, Placeholders(a)) {
        DetailGet(a, "activityId");
        assert DetailKey(fields) == id;
        var j :| 0 <= j < |fields| && fields[j] == ("activityId", id);
        assert Bindable(fields[j].1);
        assert id in t1.summary;
        var t2 := t1.(details := t1.details + [fields]);
        assert Consistent(t2);
        RouteStageRows(a, id, t2);
      }
    }
  }
}
