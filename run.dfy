/** One run of the script's `__main__` block: list the ids, open the
    database, resolve the delta, download it when it is not empty, close the
    database.  Each early `exit()` ends the run where it stands; an exception
    escaping from the download ends it without closing the database. */
module SyncRun {
  import opened Json
  import opened Store
  import opened Pagination
  import opened Delta
  import opened Persistence
  import opened Batch
  import opened SmashrunClient

  /** The calls the script makes on its Smashrun object, in order. */
  datatype Step = ListIds | InitDb | Resolve | Download(ids: seq<int>) | CloseDb

  /** How the run ends: no ids (or an error listing them), `initDb` returned
      False, an exception escaped, or the database was closed. */
  datatype Exit = NoIds | InitFailed | Crashed(exc: Exc) | Closed

  datatype RunResult = RunResult(trace: seq<Step>, exit: Exit, rows: Tables, schema: bool)

  /** What one run does, given the server's answers, how opening the
      database goes, and the rows and schema flag of the file beforehand. */
  function RunSpec(token: Option<string>, pages: Pages, fetch: Fetches, fault: InitFault,
                   rows: Tables, schema: bool): RunResult
  {
    var listed := Listing(token, pages);
    if listed.None? || listed.value == [] then RunResult([ListIds], NoIds, rows, schema)
    else if fault == ConnectFails then RunResult([ListIds, InitDb], Crashed(AttributeError), rows, schema)
    else if fault == SchemaFails then RunResult([ListIds, InitDb], InitFailed, rows, schema)
    else
      var pending := Missing(listed.value, rows.summary);
      if |pending| == 0 then RunResult([ListIds, InitDb, Resolve, CloseDb], Closed, rows, true)
      else
        var e := DownloadSpec(pending, fetch, rows);
        if e.ret.Raised? then
          RunResult([ListIds, InitDb, Resolve, Download(pending)], Crashed(e.ret.exc), e.rows, true)
        else RunResult([ListIds, InitDb, Resolve, Download(pending), CloseDb], Closed, e.rows, true)
  }

  /** The `__main__` block, with the access token as a parameter. */
  method Run(token: Option<string>, pages: Pages, fetch: Fetches, fault: InitFault, file: Database)
    returns (trace: seq<Step>, exit: Exit)
    modifies file
    ensures RunResult(trace, exit, file.Rows(), file.schema) ==
      RunSpec(token, pages, fetch, fault, old(file.Rows()), old(file.schema))
  {
    var smash := new Smashrun(token);
    trace := [ListIds];
    var ids, _ := smash.GetActivitiesIds(pages);
    if ids.None? || ids.value == [] {
      return trace, NoIds;
    }
    trace := trace + [InitDb];
    var init := smash.InitDb(fault, file);
    if init.Raised? {
      return trace, Crashed(init.exc);
    }
    if !init.value {
      return trace, InitFailed;
    }
    trace := trace + [Resolve];
    var toDownload := smash.DetermineDownload(ids.value);
    var pending := toDownload.value;
    if |pending| > 0 {
      trace := trace + [Download(pending)];
      var done := smash.DownloadActivities(pending, fetch);
      if done.Raised? {
        return trace, Crashed(done.exc);
      }
    }
    trace := trace + [CloseDb];
    smash.CloseDb();
    exit := Closed;
  }

  /** A falsy id list (None or empty) ends the run before `initDb`: the file
      is not touched. */
  lemma NoIdsTouchesNothing(token: Option<string>, pages: Pages, fetch: Fetches, fault: InitFault,
                            rows: Tables, schema: bool)
    requires Listing(token, pages).None? || Listing(token, pages) == Some([])
    ensures var r := RunSpec(token, pages, fetch, fault, rows, schema);
      r.trace == [ListIds] && r.exit == NoIds && r.rows == rows && r.schema == schema
  {
  }

  /** A failed page-0 request touches nothing either; an empty token is not
      None, so it does not stop the run on its own. */
  lemma FirstPageFailureTouchesNothing(token: Option<string>, pages: Pages, fetch: Fetches,
                                       fault: InitFault, rows: Tables, schema: bool)
    requires token.None? || PageAt(pages, 0).NotOk?
    ensures var r := RunSpec(token, pages, fetch, fault, rows, schema);
      r.trace == [ListIds] && r.rows == rows && r.schema == schema
    ensures Listing(Some(""), pages).None? <==> PageAt(pages, 0).NotOk?
  {
  }

  /** When `initDb` does not return True the run ends before resolution and
      download, and no row changes. */
  lemma InitFailureStops(token: Option<string>, pages: Pages, fetch: Fetches, fault: InitFault,
                         rows: Tables, schema: bool)
    requires fault != NoFault
    ensures var r := RunSpec(token, pages, fetch, fault, rows, schema);
      && Resolve !in r.trace && CloseDb !in r.trace
      && (forall s :: s in r.trace ==> !s.Download?)
      && r.rows == rows && r.schema == schema
  {
  }

  /** The batch download is started at most once and only with the delta:
      exactly when the listing is non-empty, `initDb` succeeds and the delta
      is non-empty. */
  lemma DownloadGetsDelta(token: Option<string>, pages: Pages, fetch: Fetches, fault: InitFault,
                          rows: Tables, schema: bool, ids: seq<int>)
    ensures var r := RunSpec(token, pages, fetch, fault, rows, schema);
      var listed := Listing(token, pages);
      Download(ids) in r.trace <==>
        && listed.Some? && listed.value != [] && fault == NoFault
        && ids == Missing(listed.value, rows.summary) && ids != []
  {
  }

  /** Every run that gets past `initDb` closes the database unless an
      exception escapes from the download, whether anything was downloaded or
      not. */
  lemma ClosesAfterInit(token: Option<string>, pages: Pages, fetch: Fetches, fault: InitFault,
                        rows: Tables, schema: bool)
    ensures var r := RunSpec(token, pages, fetch, fault, rows, schema);
      (CloseDb in r.trace <==> r.exit == Closed) &&
      (InitDb in r.trace && fault == NoFault && !r.exit.Crashed? ==> r.trace[|r.trace| - 1] == CloseDb)
  {
  }

  /** The position of a step in the script. */
  function Rank(s: Step): nat {
    match s
    case ListIds => 0
    case InitDb => 1
    case Resolve => 2
    case Download(_) => 3
    case CloseDb => 4
  }

  /** The steps come in the script's order, starting with the listing, each
      at most once; the only step ever skipped is the download, when the
      delta is empty. */
  lemma StepsInOrder(token: Option<string>, pages: Pages, fetch: Fetches, fault: InitFault,
                     rows: Tables, schema: bool)
    ensures var r := RunSpec(token, pages, fetch, fault, rows, schema);
      && r.trace != [] && r.trace[0] == ListIds
      && forall i :: 0 <= i < |r.trace| - 1 ==>
           || Rank(r.trace[i + 1]) == Rank(r.trace[i]) + 1
           || (r.trace[i] == Resolve && r.trace[i + 1] == CloseDb)
  {
  }

  /** The run keeps every row the file held and keeps activity ids in the
      detail and route tables backed by summary rows. */
  lemma RunOnlyAppends(token: Option<string>, pages: Pages, fetch: Fetches, fault: InitFault,
                       rows: Tables, schema: bool)
    ensures Grows(rows, RunSpec(token, pages, fetch, fault, rows, schema).rows)
    ensures Consistent(rows) ==> Consistent(RunSpec(token, pages, fetch, fault, rows, schema).rows)
  {
    var listed := Listing(token, pages);
    if listed.Some? && listed.value != [] && fault == NoFault {
      var pending := Missing(listed.value, rows.summary);
      DownloadOnlyAppends(pending, fetch, rows);
      if Consistent(rows) {
        DownloadPreservesConsistency(pending, fetch, rows);
      }
    }
  }

  /** When every id the first run downloads is synchronisable and the run is
      not cut short by an exception, a second run against the same server
      downloads nothing. */
  lemma SecondRunDownloadsNothing(token: Option<string>, pages: Pages, fetch: Fetches,
                                  rows: Tables, schema: bool)
    requires var listed := Listing(token, pages);
      listed.Some? && forall id :: id in Missing(listed.value, rows.summary) ==> Syncable(fetch, id)
    requires !RunSpec(token, pages, fetch, NoFault, rows, schema).exit.Crashed?
    ensures var first := RunSpec(token, pages, fetch, NoFault, rows, schema);
      var second := RunSpec(token, pages, fetch, NoFault, first.rows, first.schema);
      forall s :: s in second.trace ==> !s.Download?
  {
    var listed := Listing(token, pages).value;
    var first := RunSpec(token, pages, fetch, NoFault, rows, schema);
    if listed != [] {
      var pending := Missing(listed, rows.summary);
      if pending != [] {
        DownloadMarksSeen(pending, fetch, rows);
        DownloadOnlyAppends(pending, fetch, rows);
      }
      forall id | id in listed ensures Stored(first.rows.summary, id) {
        MissingMembers(listed, rows.summary, id);
      }
      MissingEmpty(listed, first.rows.summary);
    }
  }

  /** Not every run converges: an activity without GPS data is listed, found
      missing and fetched again on every run, because nothing stores it. */
  lemma GpsLessActivityStaysMissing(id: int, activity: JsonObject, rows: Tables)
    requires HasKey(activity, "hasDetailsGPS") && EqualsZero(Get(activity, "hasDetailsGPS").value)
    requires !Stored(rows.summary, id)
    ensures var fetch := map[id := Ok(activity)];
      var after := DownloadSpec([id], fetch, rows).rows;
      after == rows && Missing([id], after.summary) == [id]
  {
    GpsGate(activity, rows);
    assert [id][..0] == [];
  }
}
