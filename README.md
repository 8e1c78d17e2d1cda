# Smashrun activity sync, modelled in Dafny

This project models the synchronisation engine of a small Python tool. The
tool copies running activities from the Smashrun web API into a local SQLite
file, `results_sync.db`. The engine is the `Smashrun` class in
`smashrun/smashrun.py`, and the script block at the end of `main.py` drives it.

One run does five things, in this order:

1. It lists the remote activity ids page by page.
2. It opens the database and creates the three tables if they are missing.
3. It keeps the ids that have no summary row yet (the *delta*).
4. It downloads each of those activities and stores it as one summary row,
   one detail row and one route row per recorded sample.
5. It closes the database.

The network and the database are replaced by values:

- The id listing is a sequence of page answers (`Pagination.Pages`). Each
  answer is `Ok(ids)` or `NotOk`, and every page past the end of the sequence
  answers an empty list.
- The per-activity requests are a map from id to answer (`Batch.Fetches`).
  An id the map does not hold fails.
- The database file is a `Store.Database` object. It has a schema flag and
  three row sequences, `summary`, `details` and `route`. Its methods stand
  for the SQL statements the engine executes, and they fail exactly when
  SQLite would reject the row (see below).
- How `initDb` goes is a parameter (`SmashrunClient.InitFault`): connecting
  fails, creating a table fails, or both succeed.

Payloads are JSON objects: sequences of `(key, value)` entries with distinct
keys, kept in document order (`Json.JsonObject`). Python's behaviour on them
is written out:

- a missing key raises KeyError;
- `hasDetailsGPS == 0` holds for `0`, `0.0` and `False`, and for nothing
  else (so `None` passes the gate);
- lists and strings can be iterated and subscripted;
- a negative index counts from the end (`Json.PyIndex`), so a route field
  missing from `recordingKeys` keeps index -1 and reads the *last* column
  of `recordingValues`;
- an index out of range raises IndexError, and subscripting or iterating a
  number or `None` raises TypeError.

An exception that escapes `storeActivity` also escapes `downloadActivities`
and ends the script. The model returns it as `Ret.Raised`, and the run ends
with `Crashed` before `closeDb`.

The store's failure conditions are these:

- The summary insert fails when its `activity_id` is already in the table
  (a `UNIQUE` column, which lets NULLs repeat) or cannot be bound (a list or
  an object). `storeActivity` swallows that failure and carries on.
- The detail insert fails unless four things hold: the column count equals
  the placeholder count `len(activity) - 6` (no placeholders when that is not
  positive), that count is positive, every value can be bound, and no detail
  row has the same `activityId`. The lemma `Persistence.DetailArity` proves
  that the counts agree exactly when all six ignored keys (`recordingKeys`,
  `recordingValues`, `pauseIndexes`, `laps`, `songs`, `heartRateRecovery`)
  are in the payload.
- A route insert fails when one of its values cannot be bound. Rows inserted
  before it stay.

Each imperative method of the class has a contract that ties it to a pure
specification function:

- `GetActivitiesIds` to `Pagination.Listing`;
- `DetermineDownload` to `Delta.Missing`;
- `StoreActivity` to `Persistence.StoreSpec`;
- `DownloadActivities` to `Batch.DownloadSpec`;
- `SyncRun.Run` to `SyncRun.RunSpec`.

The lemmas state the engine's properties about those functions.

Where the design intent and the code differ, the model follows the code:

- The summary row is inserted *before* the detail and route rows, and it
  stays when they fail.
- Detail columns come from the payload's own keys, not from a fixed record.
- A route field absent from `recordingKeys` is not treated as an error. It
  reads column -1.
- No counts are reported.
- Runs do not always converge. An activity without GPS data is never stored,
  so every run lists it as missing and fetches it again
  (`SyncRun.GpsLessActivityStaysMissing`). Convergence is proved only when
  every downloaded id can be synced (`SyncRun.SecondRunDownloadsNothing`).

## Model

| member | source | states |
|---|---|---|
| `Json.Get` | smashrun/smashrun.py:129-131 | `activity[key]`: the value found sits in an entry with that key; None (KeyError) exactly when no entry has the key |
| `Json.GetEntry` | smashrun/smashrun.py:158 | in a dict, looking up an entry's key finds that entry's value |
| `Json.FirstMissing` | smashrun/smashrun.py:131 | the first of the skip message's keys the payload lacks; None exactly when it has them all |
| `Json.MinusOneIsLast` | smashrun/smashrun.py:181-186 | an index left at -1 selects the last element of a non-empty sequence |
| `SmashrunClient.Smashrun.constructor` | smashrun/smashrun.py:10-13 | keeps the token; no connection and no cursor yet |
| `SmashrunClient.Smashrun.GetActivitiesIds` | smashrun/smashrun.py:16-51 | requests pages 0, 1, 2, ... in turn, one more than the pages it keeps, and returns `Listing` |
| `Pagination.FirstStopIsFirst` | smashrun/smashrun.py:36-47 | the loop stops at the first page from its start that is empty or fails, and every page before it continued |
| `Pagination.FirstStopUnique` | smashrun/smashrun.py:36-47 | any page that stops the loop, with only continuing pages before it, is where the loop stops |
| `Pagination.NoListing` | smashrun/smashrun.py:20-33 | None exactly when the token is None or the page-0 request fails |
| `Pagination.KeepsPagesBeforeStop` | smashrun/smashrun.py:36-51 | stopping at page k >= 1 (empty or failed) returns exactly the ids of pages 0 .. k-1, in order |
| `Pagination.EmptyFirstPage` | smashrun/smashrun.py:35-36 | an empty page 0 yields an empty list, not None |
| `Pagination.CollectedPrefix` | smashrun/smashrun.py:37 | the ids of earlier pages stay at the front as later pages are appended |
| `Pagination.CollectedMembers` | smashrun/smashrun.py:37 | the result holds exactly the ids of the successful pages before the stop |
| `SmashrunClient.Smashrun.InActivitiesDb` | smashrun/smashrun.py:68-78 | true exactly when a summary row holds the id |
| `Store.Database.Contains` | smashrun/smashrun.py:70-72 | the SELECT finds a row exactly when the id is in the summary table |
| `SmashrunClient.Smashrun.DetermineDownload` | smashrun/smashrun.py:53-66 | None without a cursor; otherwise the ids with no summary row, in input order, duplicates kept, and nothing is written |
| `Delta.MissingConcat` | smashrun/smashrun.py:61-63 | the filter distributes over concatenation, so relative order is kept |
| `Delta.MissingCount` | smashrun/smashrun.py:61-63 | each id occurs as often as in the input if it is not stored, and not at all if it is |
| `Delta.MissingMembers` | smashrun/smashrun.py:61-63 | an id is in the delta exactly when it was listed and is not stored |
| `Delta.MissingEmpty` | smashrun/smashrun.py:61-66 | the delta is empty exactly when every listed id is stored |
| `Delta.MissingIdempotent` | smashrun/smashrun.py:61-63 | resolving the delta again against the same table changes nothing |
| `Delta.ResolveExample` | smashrun/smashrun.py:61-63 | ids [1, 2, 3] against a table holding 2 give [1, 3] |
| `SmashrunClient.Smashrun.InitDb` | smashrun/smashrun.py:80-94 | success sets the cursor, opens it and creates the schema; a schema failure closes the connection and returns False; a connect failure with no previous connection raises AttributeError (`None.close()`); no row changes |
| `Store.Database.CreateTables` | smashrun/smashrun.py:85-88 | `CREATE TABLE IF NOT EXISTS` is idempotent: the schema exists afterwards and no row changes |
| `SmashrunClient.Smashrun.CloseDb` | smashrun/smashrun.py:96-98 | the connection is closed |
| `SmashrunClient.Smashrun.DownloadActivities` | smashrun/smashrun.py:100-125 | visits the ids in order as `DownloadSpec` says and returns True unless an exception escapes |
| `Batch.DownloadReturnsTrue` | smashrun/smashrun.py:100-125 | the batch never returns False: True, or an escaping exception |
| `Batch.SkipsFailedFetch` | smashrun/smashrun.py:111-113 | an id whose request fails is skipped without storing anything |
| `Batch.ContinuesAfterStore` | smashrun/smashrun.py:120-123 | after storing returns True or False, the batch goes on with the next id from the tables storing left |
| `Batch.DownloadConcat` | smashrun/smashrun.py:102 | ids are processed in order: a batch is its first part, then the rest from the tables the first part left |
| `Batch.DownloadOnlyAppends` | smashrun/smashrun.py:100-125 | a batch only appends rows; it never updates or deletes one |
| `Batch.DownloadPreservesConsistency` | smashrun/smashrun.py:100-125 | detail and route activity ids stay backed by summary rows across a batch |
| `Batch.DownloadMarksSeen` | smashrun/smashrun.py:100-125 | a completed batch of ids that can be synced leaves every one of them in the summary table |
| `SmashrunClient.Smashrun.StoreActivity` | smashrun/smashrun.py:127-213 | executes the GPS gate, summary insert, detail insert and route loop with the rows and outcome of `StoreSpec` |
| `Persistence.GpsGate` | smashrun/smashrun.py:129-132 | `hasDetailsGPS == 0` writes no row; it returns False, or raises KeyError when the skip message's keys are missing |
| `Store.Database.InsertSummary` | smashrun/smashrun.py:136-141 | the row is appended exactly when its activity_id can be bound and is not already taken (NULLs may repeat); otherwise nothing changes |
| `Persistence.StoreRows` | smashrun/smashrun.py:136-213 | a swallowed summary failure keeps going; a rejected detail returns False with the summary outcome kept and no detail or route row; otherwise the detail row is appended and route rows 0, 1, ... follow, each one accepted, all n of them exactly when it returns True |
| `Persistence.StoreSucceeds` | smashrun/smashrun.py:127-213 | an activity with GPS data, an id not yet stored, all six ignored keys, bindable detail values and a well-formed recording of n samples returns True with one summary row, one detail row and n route rows |
| `SmashrunClient.Smashrun.BuildDetail` | smashrun/smashrun.py:145-158 | the column list and value tuple zip to the payload's non-ignored entries, in payload order |
| `Persistence.DetailEntriesConcat` | smashrun/smashrun.py:148-158 | building the detail columns key by key appends them in payload order |
| `Persistence.DetailGet` | smashrun/smashrun.py:148-158 | a non-ignored key has the same value in the detail row as in the payload |
| `Persistence.DetailColumns` | smashrun/smashrun.py:148-158 | every non-ignored payload key is exactly one detail column, with its own value; no ignored key is a column |
| `Persistence.DetailArity` | smashrun/smashrun.py:160-175 | with an activityId present, column and placeholder counts agree exactly when all six ignored keys are present |
| `Store.Database.InsertDetail` | smashrun/smashrun.py:174-179 | the row is appended exactly when the counts agree and are positive, every value can be bound and the activityId is not taken |
| `Persistence.StoredNeedsAllIgnoredKeys` | smashrun/smashrun.py:134-179 | a successful store had GPS data, an activityId and all six ignored keys |
| `SmashrunClient.Smashrun.FindFieldIndices` | smashrun/smashrun.py:181-202 | the six index variables end as `Indices(keys)` |
| `Persistence.LastIndexSpec` | smashrun/smashrun.py:181-202 | each index is the last position of its name, or -1 exactly when the name is absent |
| `Persistence.AllFieldsFound` | smashrun/smashrun.py:181-202 | with all six names present, no index stays -1 |
| `Persistence.CellReads` | smashrun/smashrun.py:206 | `recordingValues[i][x]` reads sample x of column i, or of the last column when i is -1; IndexError or TypeError otherwise |
| `Persistence.CellsSpec` | smashrun/smashrun.py:206 | the six values are read left to right, and all succeed exactly when each one does, giving them position by position |
| `Persistence.RouteRowBuilds` | smashrun/smashrun.py:181-212 | when every route field is named, there is one column per key and every column is a list of n bindable values, each sample index gives a row that builds and is accepted |
| `SmashrunClient.Smashrun.StoreRoute` | smashrun/smashrun.py:181-213 | index discovery, `len(recordingValues[0])`, then the route loop as `RouteStage` says |
| `Store.Database.InsertRoute` | smashrun/smashrun.py:207-212 | the row is appended exactly when all its values can be bound |
| `Persistence.RouteLoopRows` | smashrun/smashrun.py:204-213 | rows are appended with idx 0, 1, 2, ... in order, each built from its own sample and accepted by the insert; earlier rows stay; True exactly when all rows were added; otherwise the next row raised (and the call raises that exception) or was rejected (and the call returns False) |
| `Persistence.RouteLoopStop` | smashrun/smashrun.py:204-213 | the loop stops early only at the row right after the added ones, which raised or was rejected |
| `Persistence.RouteLoopSucceeds` | smashrun/smashrun.py:204-213 | when every row x .. n-1 builds and is accepted, the loop adds all of them and returns True |
| `Persistence.RouteStageRows` | smashrun/smashrun.py:187-213 | the route stage touches only the route table; its rows carry the activity id with consecutive idx from 0 and were all accepted; a raising lookup of `recordingKeys`/`recordingValues` raises with no row; a short loop stopped at a row that raised or was rejected |
| `Persistence.StoreOnlyAppends` | smashrun/smashrun.py:127-213 | storing one activity only appends rows |
| `Persistence.StoreMarksSeen` | smashrun/smashrun.py:136-141 | past the GPS gate, an activity whose activityId is x leaves x in the summary table, whatever happens later |
| `Persistence.StorePreservesConsistency` | smashrun/smashrun.py:136-213 | every detail or route activity id stays backed by a summary row |
| `SyncRun.Run` | main.py:191-223 | the script run: steps, exit, rows and schema are those of `RunSpec` |
| `SyncRun.NoIdsTouchesNothing` | main.py:199-202 | None or an empty list ends the run after the listing, and the file is unchanged |
| `SyncRun.FirstPageFailureTouchesNothing` | main.py:192-202 | a failed page 0 (or no token) ends the run with the file unchanged; with the empty token '' the listing is None exactly when page 0 fails |
| `SyncRun.InitFailureStops` | main.py:206-209 | an `initDb` that does not return True ends the run with no resolve, download or close step and no row changed |
| `SyncRun.DownloadGetsDelta` | main.py:212-219 | the download step happens exactly when the list is non-empty, init succeeds and the delta is non-empty, and it gets exactly that delta |
| `SyncRun.ClosesAfterInit` | main.py:215-223 | the close step is reached exactly on runs that end closed; past a successful init it is the last step unless an exception escapes |
| `SyncRun.StepsInOrder` | main.py:198-223 | the run starts with the listing and takes the steps in the script's order, skipping only the download when the delta is empty |
| `SyncRun.RunOnlyAppends` | main.py:212-223 | a run keeps every row the file held and keeps the summary-backing invariant |
| `SyncRun.SecondRunDownloadsNothing` | main.py:212-219 | if every id of the first delta can be synced and the first run does not crash, a second run downloads nothing |
| `SyncRun.GpsLessActivityStaysMissing` | main.py:212-217 | an activity without GPS data is left out of every table and stays in the delta |

## Left out

- HTTP is not modelled: URLs, query parameters (the page size of 100), status codes and JSON decoding. A page or activity answer is `Ok` with a decoded value or `NotOk`.
- Nested JSON objects are modelled as lists (`JList`). A `recordingValues` written as an object would raise KeyError in Python, and that case is not modelled.
- The pagination loop keeps going while the server returns non-empty pages. The model's server is finite and answers empty pages after its last one. A server that never ends would keep Python looping forever, and that is not modelled.
- SQL text, leaving out the placeholder-string loop at smashrun/smashrun.py:161-170, which is modelled by its count. SQLite faults that do not come from one of the modelled constraints are left out too: a detail column the table does not have, a SQL keyword used as a key, SQLite's type affinity, and write errors. SQLite stores `'7'` in the INTEGER column `activity_id` as 7 and binds `True` as 1, so those clash under UNIQUE and match `activity_id=7`. The model compares JSON values by structure, so `JText("7")` and `JBool(true)` stay distinct from `JNum(7.0)`.
- Numbers are exact and unbounded (`JNum` holds a real). sqlite3's OverflowError for an integer outside the signed 64-bit range is not modelled. The summary insert would swallow it, and the detail and route inserts would return False. Float decoding is not modelled either: a `hasDetailsGPS` written as `1e-400` decodes to 0.0 in Python and closes the GPS gate, but not in the model.
- Transactions are not modelled: `commit`, `close`, and the loss of uncommitted rows when the script dies. After `Crashed`, the rows shown are the in-session rows, not what the file would keep.
- `self.conn.close()` after a failed schema step is modelled only as the connection being closed.
- Logging (`print`), `sys.exc_info`, and the unused `newId = lastrowid` at smashrun/smashrun.py:142.
- main.py lines 8-190 are a string literal, not code.
- gpx/generator.py is not part of this model. Its only logic is a None check.
- Route values are opaque JSON values. Nothing is computed with them.
- `SmashrunClient.Smashrun.InActivitiesDb`: requires an open cursor, because in Python a call without one raises. The only caller checks the cursor first.
- `SmashrunClient.Smashrun.DetermineDownload`: requires that a cursor, when set, is open, because a closed connection raises on `execute`. The script calls it only after a successful `initDb`.
- `SmashrunClient.Smashrun.CloseDb`: requires a cursor. With no connection, Python raises AttributeError; the script closes only after a successful `initDb`.
- `SmashrunClient.Smashrun.DownloadActivities`: requires an open cursor on every path, although a batch whose fetches all fail never touches it. The script calls it only after a successful `initDb`.
- `SmashrunClient.Smashrun.StoreActivity`: requires an open cursor on every path, although the GPS-less path at smashrun/smashrun.py:129-132 never touches it. Its only caller runs with an open cursor.
- `SmashrunClient.Smashrun.StoreRoute`: requires an open cursor, which its only caller, `StoreActivity`, always has.
