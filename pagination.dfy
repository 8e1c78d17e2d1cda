/** The paginated listing of activity ids (`Smashrun.getActivitiesIds`): pages
    0, 1, 2, ... of 100 ids each, concatenated until a page is empty or its
    request fails.  The server is a sequence of answers, one per page index;
    every page past its end answers an empty list, so each listing ends. */
module Pagination {
  import opened Json

  type Pages = seq<Response<seq<int>>>

  /** The server's answer to the request for page `i`. */
  function PageAt(pages: Pages, i: nat): Response<seq<int>> {
    if i < |pages| then pages[i] else Ok([])
  }

  /** The loop goes on past a page that came back ok and non-empty. */
  predicate Continues(r: Response<seq<int>>) {
    r.Ok? && |r.body| != 0
  }

  /** The first page at or after `from` on which the loop stops. */
  function FirstStop(pages: Pages, from: nat): nat
    decreases |pages| - from
  {
    if Continues(PageAt(pages, from)) then FirstStop(pages, from + 1) else from
  }

  /** The ids of pages 0 .. k-1, in page order. */
  function Collected(pages: Pages, k: nat): seq<int> {
    if k == 0 then []
    else
      var r := PageAt(pages, k - 1);
      Collected(pages, k - 1) + (if r.Ok? then r.body else [])
  }

  /** What `getActivitiesIds` returns: None without a token or when page 0
      fails; otherwise every id of the pages before the one the loop stops on. */
  function Listing(token: Option<string>, pages: Pages): Option<seq<int>> {
    if token.None? then None
    else if PageAt(pages, 0).NotOk? then None
    else Some(Collected(pages, FirstStop(pages, 0)))
  }

  /** How many page requests the listing makes. */
  function Requests(token: Option<string>, pages: Pages): nat {
    if token.None? then 0 else FirstStop(pages, 0) + 1
  }

  /** FirstStop is the first stopping page: every page from `from` up to it
      continues, and it does not. */
  lemma {:induction false} FirstStopIsFirst(pages: Pages, from: nat)
    ensures var k := FirstStop(pages, from);
      && from <= k
      && !Continues(PageAt(pages, k))
      && forall j :: from <= j < k ==> Continues(PageAt(pages, j))
    decreases |pages| - from
  {
    if Continues(PageAt(pages, from)) {
      FirstStopIsFirst(pages, from + 1);
    }
  }

  /** Any page that stops the loop and is preceded only by continuing pages
      is FirstStop. */
  lemma FirstStopUnique(pages: Pages, from: nat, k: nat)
    requires from <= k && !Continues(PageAt(pages, k))
    requires forall j :: from <= j < k ==> Continues(PageAt(pages, j))
    ensures FirstStop(pages, from) == k
  {
    FirstStopIsFirst(pages, from);
  }

  /** Without a token, or when page 0 fails, nothing is returned, even though
      a failure on a later page keeps what came before it. */
  lemma NoListing(token: Option<string>, pages: Pages)
    ensures Listing(token, pages).None? <==> token.None? || PageAt(pages, 0).NotOk?
  {
  }

  /** A listing that stops at page k >= 1, because that page is empty or its
      request failed, returns exactly the ids of pages 0 .. k-1. */
  lemma KeepsPagesBeforeStop(token: Option<string>, pages: Pages, k: nat)
    requires token.Some? && 1 <= k
    requires forall j :: 0 <= j < k ==> Continues(PageAt(pages, j))
    requires !Continues(PageAt(pages, k))
    ensures Listing(token, pages) == Some(Collected(pages, k))
  {
    FirstStopUnique(pages, 0, k);
    assert Continues(PageAt(pages, 0));
  }

  /** An empty page 0 gives an empty (not a missing) listing. */
  lemma EmptyFirstPage(token: Option<string>, pages: Pages)
    requires token.Some? && PageAt(pages, 0) == Ok([])
    ensures Listing(token, pages) == Some([])
  {
  }

  /** The pages before page j reappear at the front of the pages before k. */
  lemma {:induction false} CollectedPrefix(pages: Pages, j: nat, k: nat)
    requires j <= k
    ensures Collected(pages, j) <= Collected(pages, k)
    decreases k - j
  {
    if j < k {
      CollectedPrefix(pages, j, k - 1);
    }
  }

  /** The pages before k hold exactly the ids of pages 0 .. k-1 that came
      back ok. */
  lemma {:induction false} CollectedMembers(pages: Pages, k: nat, x: int)
    ensures x in Collected(pages, k) <==>
      exists j :: 0 <= j < k && PageAt(pages, j).Ok? && x in PageAt(pages, j).body
  {
    if k > 0 {
      CollectedMembers(pages, k - 1, x);
      var r := PageAt(pages, k - 1);
      if x in Collected(pages, k) && x !in Collected(pages, k - 1) {
        assert r.Ok? && x in r.body;
      }
    }
  }
}
