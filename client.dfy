/** The `Smashrun` class: the access token, the database cursor that `initDb`
    sets, and the sync operations, each executed step by step and proved
    against the function that says what it computes. */
module SmashrunClient {
  import opened Json
  import opened Store
  import opened Pagination
  import opened Delta
  import opened Persistence
  import opened Batch

  /** How opening the database goes: `sqlite3.connect` raises, one of the
      `CREATE TABLE` statements raises, or both succeed. */
  datatype InitFault = NoFault | ConnectFails | SchemaFails

  class Smashrun {
    /** None stands for Python's None; the script passes ''. */
    const accessToken: Option<string>
    /** `self.conn` and `self.cursor`, which `initDb` sets together. */
    var cursor: Database?
    /** Whether that connection is still open. */
    var open: bool

    constructor (accessToken: Option<string>)
      ensures this.accessToken == accessToken && cursor == null && !open
    {
      this.accessToken := accessToken;
      cursor := null;
      open := false;
    }

    /** `getActivitiesIds`: requests pages 0, 1, 2, ... in turn (the indices
        come back in `asked`) and returns what the listing function says. */
    method GetActivitiesIds(pages: Pages) returns (ids: Option<seq<int>>, asked: seq<nat>)
      ensures ids == Listing(accessToken, pages)
      ensures |asked| == Requests(accessToken, pages)
      ensures forall i :: 0 <= i < |asked| ==> asked[i] == i
    {
      asked := [];
      if accessToken.None? {
        return None, asked;
      }
      var ret: seq<int> := [];
      var page: nat := 0;
      var res := PageAt(pages, page);
      asked := asked + [page];
      if res.NotOk? {
        return None, asked;
      }
      var got := res.body;
      while |got| != 0
        invariant res == Ok(got) && res == PageAt(pages, page)
        invariant forall j :: 0 <= j < page ==> Continues(PageAt(pages, j))
        invariant ret == Collected(pages, page)
        invariant |asked| == page + 1 && forall i :: 0 <= i < |asked| ==> asked[i] == i
        decreases |pages| - page
      {
        ret := ret + got;
        page := page + 1;
        res := PageAt(pages, page);
        asked := asked + [page];
        if res.NotOk? {
          break;
        }
        got := res.body;
      }
      FirstStopUnique(pages, 0, page);
      ids := Some(ret);
    }

    /** `inActivitiesDb`: whether a summary row holds `id`. */
    method InActivitiesDb(id: int) returns (found: bool)
      requires cursor != null && open
      ensures found == Stored(cursor.summary, id)
    {
      found := cursor.Contains(id);
    }

    /** `determineDownload`: False (None) without a cursor; otherwise the ids
        to download, in order, duplicates kept.  It writes nothing. */
    method DetermineDownload(ids: seq<int>) returns (r: Option<seq<int>>)
      requires cursor != null ==> open
      ensures cursor == null ==> r == None
      ensures cursor != null ==> r == Some(Missing(ids, cursor.summary))
    {
      if cursor == null {
        return None;
      }
      var ret: seq<int> := [];
      for i := 0 to |ids|
        invariant ret == Missing(ids[..i], cursor.summary)
      {
        var present := InActivitiesDb(ids[i]);
        if !present {
          ret := ret + [ids[i]];
        }
        assert ids[..i + 1][..i] == ids[..i];
      }
      assert ids[..|ids|] == ids;
      r := Some(ret);
    }

    /** `initDb` on the file `file`.  When connecting fails before any
        connection was made, the handler's `self.conn.close()` raises
        AttributeError on None. */
    method InitDb(fault: InitFault, file: Database) returns (r: Ret<bool>)
      modifies this, file`schema
      ensures file.Rows() == old(file.Rows())
      ensures fault == ConnectFails ==>
        && cursor == old(cursor) && file.schema == old(file.schema)
        && r == (if old(cursor) == null then Raised(AttributeError) else Returned(false))
        && open == (old(open) && old(cursor) == null)
      ensures fault == SchemaFails ==>
        cursor == file && !open && file.schema == old(file.schema) && r == Returned(false)
      ensures fault == NoFault ==>
        cursor == file && open && file.schema && r == Returned(true)
    {
      if fault == ConnectFails {
        if cursor == null {
          return Raised(AttributeError);
        }
        open := false;
        return Returned(false);
      }
      cursor := file;
      open := true;
      if fault == SchemaFails {
        open := false;
        return Returned(false);
      }
      file.CreateTables();
      r := Returned(true);
    }

    /** `closeDb`: commit and close. */
    method CloseDb()
      requires cursor != null
      modifies this`open
      ensures !open
    {
      open := false;
    }

    /** `downloadActivities`. */
    method DownloadActivities(ids: seq<int>, fetch: Fetches) returns (r: Ret<bool>)
      requires cursor != null && open
      modifies cursor`summary, cursor`details, cursor`route
      ensures Effect(r, cursor.Rows()) == DownloadSpec(ids, fetch, old(cursor.Rows()))
      ensures r == Returned(true) || r.Raised?
    {
      ghost var start := cursor.Rows();
      DownloadReturnsTrue(ids, fetch, start);
      for i := 0 to |ids|
        invariant DownloadSpec(ids, fetch, start) == DownloadSpec(ids[i..], fetch, cursor.Rows())
      {
        assert ids[i..][1..] == ids[i + 1..];
        var response := FetchAt(fetch, ids[i]);
        if response.NotOk? {
          continue;
        }
        var stored := StoreActivity(response.body);
        if stored.Raised? {
          return stored;
        }
      }
      r := Returned(true);
    }

    /** `storeActivity`. */
    method StoreActivity(activity: JsonObject) returns (r: Ret<bool>)
      requires cursor != null && open
      modifies cursor`summary, cursor`details, cursor`route
      ensures Effect(r, cursor.Rows()) == StoreSpec(activity, old(cursor.Rows()))
    {
      var gps := Get(activity, "hasDetailsGPS");
      if gps.None? {
        return Raised(KeyError("hasDetailsGPS"));
      }
      if EqualsZero(gps.value) {
        var missing := FirstMissing(activity, SkipLogKeys);
        if missing.Some? {
          return Raised(KeyError(missing.value));
        }
        return Returned(false);
      }
      var id := Get(activity, "activityId");
      if id.None? {
        return Raised(KeyError("activityId"));
      }
      var _ := cursor.InsertSummary(id.value);
      var columns, values := BuildDetail(activity);
      var ok := cursor.InsertDetail(columns, values, Placeholders(activity));
      if !ok {
        return Returned(false);
      }
      r := StoreRoute(activity, id.value);
    }

    /** The column list and value tuple of the detail insert: the payload's
        keys outside the ignored ones, in payload order, each with its
        value. */
    method BuildDetail(activity: JsonObject) returns (columns: seq<string>, values: seq<Json>)
      ensures |columns| == |values| && Zip(columns, values) == DetailEntries(activity)
    {
      columns, values := [], [];
      for i := 0 to |activity|
        invariant |columns| == |values| && Zip(columns, values) == DetailEntries(activity[..i])
      {
        DetailEntriesConcat(activity[..i], [activity[i]]);
        assert activity[..i + 1] == activity[..i] + [activity[i]];
        assert [activity[i]][1..] == [];
        if activity[i].0 in IgnoredKeys {
          continue;
        }
        columns := columns + [activity[i].0];
        values := values + [activity[i].1];
      }
      assert activity[..|activity|] == activity;
    }

    /** The index-discovery loop over `recordingKeys`. */
    method FindFieldIndices(keys: seq<Json>) returns (ix: FieldIndices)
      ensures ix == Indices(keys)
    {
      var distance, latitude, longitude, elevation, heartRate, clock := -1, -1, -1, -1, -1, -1;
      for k := 0 to |keys|
        invariant Indices(keys[..k]) == FieldIndices(distance, latitude, longitude, elevation, heartRate, clock)
      {
        assert keys[..k + 1][..k] == keys[..k];
        if keys[k] == JText("distance") {
          distance := k;
        } else if keys[k] == JText("latitude") {
          latitude := k;
        } else if keys[k] == JText("longitude") {
          longitude := k;
        } else if keys[k] == JText("elevation") {
          elevation := k;
        } else if keys[k] == JText("heartRate") {
          heartRate := k;
        } else if keys[k] == JText("clock") {
          clock := k;
        }
      }
      assert keys[..|keys|] == keys;
      ix := FieldIndices(distance, latitude, longitude, elevation, heartRate, clock);
    }

    /** Everything after the detail insert: index discovery, then one route
        row per sample index. */
    method StoreRoute(activity: JsonObject, id: Json) returns (r: Ret<bool>)
      requires cursor != null && open
      modifies cursor`route
      ensures Effect(r, cursor.Rows()) == RouteStage(activity, id, old(cursor.Rows()))
    {
      var rk := Get(activity, "recordingKeys");
      if rk.None? {
        return Raised(KeyError("recordingKeys"));
      }
      var keys := AsSeq(rk.value);
      if keys.None? {
        return Raised(TypeError);
      }
      var ix := FindFieldIndices(keys.value);
      var rv := Get(activity, "recordingValues");
      if rv.None? {
        return Raised(KeyError("recordingValues"));
      }
      var outer := AsSeq(rv.value);
      if outer.None? {
        return Raised(TypeError);
      }
      var first := PyIndex(outer.value, 0);
      if first.None? {
        return Raised(IndexError);
      }
      var samples := AsSeq(first.value);
      if samples.None? {
        return Raised(TypeError);
      }
      ghost var start := cursor.Rows();
      var n := |samples.value|;
      assert RouteInputs(activity) == Returned(RouteInput(keys.value, outer.value, n));
      for x := 0 to n
        invariant RouteLoop(id, outer.value, ix, 0, n, start) == RouteLoop(id, outer.value, ix, x, n, cursor.Rows())
      {
        var row := RouteRowAt(id, outer.value, ix, x);
        if row.Raised? {
          return Raised(row.exc);
        }
        var ok := cursor.InsertRoute(row.value);
        if !ok {
          return Returned(false);
        }
      }
      r := Returned(true);
    }
  }
}
