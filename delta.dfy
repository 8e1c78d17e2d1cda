/** Delta resolution (`Smashrun.determineDownload` with `inActivitiesDb`): the
    remote ids that have no row in the summary table, in listing order,
    duplicates kept. */
module Delta {
  import opened Json

  /** `inActivitiesDb(id)`: some summary row holds `id`. */
  predicate Stored(summary: seq<Json>, id: int) {
    JNum(id as real) in summary
  }

  /** The ids of `ids` not stored in `summary`, in order. */
  function Missing(ids: seq<int>, summary: seq<Json>): seq<int> {
    if ids == [] then []
    else
      var last := ids[|ids| - 1];
      Missing(ids[..|ids| - 1], summary) + (if Stored(summary, last) then [] else [last])
  }

  /** Filtering distributes over concatenation: ids keep their relative order. */
  lemma {:induction false} MissingConcat(a: seq<int>, b: seq<int>, summary: seq<Json>)
    ensures Missing(a + b, summary) == Missing(a, summary) + Missing(b, summary)
    decreases |b|
  {
    if b == [] {
      assert a + b == a;
    } else {
      var b' := b[..|b| - 1];
      assert (a + b)[..|a + b| - 1] == a + b';
      MissingConcat(a, b', summary);
    }
  }

  /** An id is to be downloaded exactly when it was listed and is not stored,
      as often as it was listed. */
  lemma {:induction false} MissingCount(ids: seq<int>, summary: seq<Json>, x: int)
    ensures multiset(Missing(ids, summary))[x] ==
      if Stored(summary, x) then 0 else multiset(ids)[x]
  {
    if ids != [] {
      var init := ids[..|ids| - 1];
      MissingCount(init, summary, x);
      assert ids == init + [ids[|ids| - 1]];
    }
  }

  lemma MissingMembers(ids: seq<int>, summary: seq<Json>, x: int)
    ensures x in Missing(ids, summary) <==> x in ids && !Stored(summary, x)
  {
    MissingCount(ids, summary, x);
  }

  /** The delta is empty exactly when every listed id is stored. */
  lemma MissingEmpty(ids: seq<int>, summary: seq<Json>)
    ensures Missing(ids, summary) == [] <==> forall x :: x in ids ==> Stored(summary, x)
  {
    if Missing(ids, summary) == [] {
      forall x | x in ids ensures Stored(summary, x) {
        MissingMembers(ids, summary, x);
      }
    } else {
      var x := Missing(ids, summary)[0];
      MissingMembers(ids, summary, x);
    }
  }

  /** Resolving the delta again against the same table changes nothing. */
  lemma {:induction false} MissingIdempotent(ids: seq<int>, summary: seq<Json>)
    ensures Missing(Missing(ids, summary), summary) == Missing(ids, summary)
  {
    if ids != [] {
      var init := ids[..|ids| - 1];
      var last := ids[|ids| - 1];
      MissingIdempotent(init, summary);
      var tail := if Stored(summary, last) then [] else [last];
      MissingConcat(Missing(init, summary), tail, summary);
      if tail != [] {
        assert Missing(tail, summary) == Missing([], summary) + [last] by {
          assert tail[..0] == [];
        }
      }
    }
  }

  /** Remote ids [1, 2, 3] against a table holding 2 leave [1, 3]. */
  lemma ResolveExample()
    ensures Missing([1, 2, 3], [JNum(2.0)]) == [1, 3]
  {
    assert [1, 2, 3][..2] == [1, 2];
    assert [1, 2][..1] == [1];
    assert [1][..0] == [];
  }
}
