/** Batch download (`Smashrun.downloadActivities`): the ids in order, each
    fetched once; an id whose request fails is skipped, a fetched activity is
    stored whatever storing returns, and the call returns True unless an
    exception escapes from storing. */
module Batch {
  import opened Json
  import opened Store
  import opened Persistence
  import Delta

  /** The server's answers to `GET /activities/{id}`; ids it has no answer
      for fail. */
  type Fetches = map<int, Response<JsonObject>>

  function FetchAt(fetch: Fetches, id: int): Response<JsonObject> {
    if id in fetch then fetch[id] else NotOk
  }

  function DownloadSpec(ids: seq<int>, fetch: Fetches, t: Tables): Effect {
    if ids == [] then Effect(Returned(true), t)
    else match FetchAt(fetch, ids[0])
      case NotOk => DownloadSpec(ids[1..], fetch, t)
      case Ok(activity) =>
        var e := StoreSpec(activity, t);
        if e.ret.Raised? then e else DownloadSpec(ids[1..], fetch, e.rows)
  }

  /** The call returns True, or an exception escapes; it never returns False. */
  lemma {:induction false} DownloadReturnsTrue(ids: seq<int>, fetch: Fetches, t: Tables)
    ensures DownloadSpec(ids, fetch, t).ret.Returned? ==> DownloadSpec(ids, fetch, t).ret.value
  {
    if ids != [] {
      match FetchAt(fetch, ids[0])
      case NotOk => DownloadReturnsTrue(ids[1..], fetch, t);
      case Ok(activity) =>
        var e := StoreSpec(activity, t);
        if !e.ret.Raised? {
          DownloadReturnsTrue(ids[1..], fetch, e.rows);
        }
    }
  }

  /** An id whose request fails is skipped: no row, no store call. */
  lemma SkipsFailedFetch(id: int, rest: seq<int>, fetch: Fetches, t: Tables)
    requires FetchAt(fetch, id).NotOk?
    ensures DownloadSpec([id] + rest, fetch, t) == DownloadSpec(rest, fetch, t)
  {
    assert ([id] + rest)[1..] == rest;
  }

  /** A fetched activity is stored and the batch goes on from the tables
      storing left, whether storing returned True or False. */
  lemma ContinuesAfterStore(id: int, rest: seq<int>, fetch: Fetches, t: Tables)
    requires FetchAt(fetch, id).Ok?
    requires StoreSpec(FetchAt(fetch, id).body, t).ret.Returned?
    ensures DownloadSpec([id] + rest, fetch, t) ==
      DownloadSpec(rest, fetch, StoreSpec(FetchAt(fetch, id).body, t).rows)
  {
    assert ([id] + rest)[1..] == rest;
  }

  /** Ids are visited in order: a batch is its first part followed by the
      rest, started from the tables the first part left. */
  lemma {:induction false} DownloadConcat(a: seq<int>, b: seq<int>, fetch: Fetches, t: Tables)
    ensures var e := DownloadSpec(a, fetch, t);
      DownloadSpec(a + b, fetch, t) == if e.ret.Raised? then e else DownloadSpec(b, fetch, e.rows)
  {
    if a == [] {
      assert a + b == b;
    } else {
      assert (a + b)[0] == a[0] && (a + b)[1..] == a[1..] + b;
      match FetchAt(fetch, a[0])
      case NotOk => DownloadConcat(a[1..], b, fetch, t);
      case Ok(activity) =>
        var e := StoreSpec(activity, t);
        if !e.ret.Raised? {
          DownloadConcat(a[1..], b, fetch, e.rows);
        }
    }
  }

  lemma {:induction false} DownloadOnlyAppends(ids: seq<int>, fetch: Fetches, t: Tables)
    ensures Grows(t, DownloadSpec(ids, fetch, t).rows)
  {
    if ids != [] {
      match FetchAt(fetch, ids[0])
      case NotOk => DownloadOnlyAppends(ids[1..], fetch, t);
      case Ok(activity) =>
        var e := StoreSpec(activity, t);
        StoreOnlyAppends(activity, t);
        if !e.ret.Raised? {
          DownloadOnlyAppends(ids[1..], fetch, e.rows);
        }
    }
  }

  lemma {:induction false} DownloadPreservesConsistency(ids: seq<int>, fetch: Fetches, t: Tables)
    requires Consistent(t)
    ensures Consistent(DownloadSpec(ids, fetch, t).rows)
  {
    if ids != [] {
      match FetchAt(fetch, ids[0])
      case NotOk => DownloadPreservesConsistency(ids[1..], fetch, t);
      case Ok(activity) =>
        var e := StoreSpec(activity, t);
        StorePreservesConsistency(activity, t);
        if !e.ret.Raised? {
          DownloadPreservesConsistency(ids[1..], fetch, e.rows);
        }
    }
  }

  /** An id is synchronisable when its request succeeds with GPS data and the
      payload carries that same id. */
  predicate Syncable(fetch: Fetches, id: int) {
    && FetchAt(fetch, id).Ok?
    && HasGps(FetchAt(fetch, id).body)
    && Get(FetchAt(fetch, id).body, "activityId") == Some(JNum(id as real))
  }

  /** A batch of synchronisable ids that finishes leaves every one of them in
      the summary table. */
  lemma {:induction false} DownloadMarksSeen(ids: seq<int>, fetch: Fetches, t: Tables)
    requires forall id :: id in ids ==> Syncable(fetch, id)
    requires DownloadSpec(ids, fetch, t).ret.Returned?
    ensures forall id :: id in ids ==> Delta.Stored(DownloadSpec(ids, fetch, t).rows.summary, id)
  {
    if ids != [] {
      assert Syncable(fetch, ids[0]) by { assert ids[0] in ids; }
      var activity := FetchAt(fetch, ids[0]).body;
      var e := StoreSpec(activity, t);
      StoreMarksSeen(activity, t, ids[0]);
      DownloadMarksSeen(ids[1..], fetch, e.rows);
      DownloadOnlyAppends(ids[1..], fetch, e.rows);
      assert forall id :: id in ids ==> id == ids[0] || id in ids[1..];
    }
  }
}
