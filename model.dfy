/**
 The row shapes of the four tables (`reviews`, `tags`, `review_tags`,
 `review_review_tags`) and the request/response shapes of the service.
 Every table has an integer primary key `id`; SQLite hands out a fresh one
 on insert.
 */
module Model {

  datatype Option<+T> = None | Some(value: T)

  /** The only error a handler reports itself (an HTTP 404 with its detail). */
  datatype Error = NotFound(detail: string)

  datatype Result<+T> = Ok(value: T) | Err(error: Error)

  // ---- rows ----

  datatype Review = Review(id: int, text: string, isTagged: bool)

  datatype Tag = Tag(id: int, name: string)

  /** Links one tag to one review; `isAiTag` is non-null and defaults to false. */
  datatype ReviewTag = ReviewTag(id: int, isAiTag: bool, tagId: int, reviewId: int)

  /** Links a review to a `review_tags` row (by that row's id, not by a tag id). */
  datatype ReviewReviewTag = ReviewReviewTag(id: int, reviewId: int, reviewTagId: int)

  // ---- requests and responses ----

  datatype TagCreate = TagCreate(name: string)

  /** The tag ids to attach: a list, so order and repetitions are part of it. */
  datatype ReviewTagCreate = ReviewTagCreate(tagIds: seq<int>)

  datatype TagResponse = TagResponse(id: int, name: string)

  datatype ReviewResponse = ReviewResponse(id: int, text: string, isTagged: bool)

  datatype ReviewCreate = ReviewCreate(text: string, isTagged: bool)

  /** The response a handler returning a review row sends back. */
  function ReviewView(r: Review): ReviewResponse
  {
    ReviewResponse(r.id, r.text, r.isTagged)
  }

  /** The response a handler returning a tag row sends back. */
  function TagView(t: Tag): TagResponse
  {
    TagResponse(t.id, t.name)
  }

  /** Response shapes carry every column of their row: nothing is lost. */
  lemma ViewsAreFaithful(r: Review, t: Tag)
    ensures Review(ReviewView(r).id, ReviewView(r).text, ReviewView(r).isTagged) == r
    ensures Tag(TagView(t).id, TagView(t).name) == t
  {
  }

  // ---- primary keys ----

  function ReviewIds(rows: seq<Review>): seq<int>
  {
    seq(|rows|, k requires 0 <= k < |rows| => rows[k].id)
  }

  function TagIds(rows: seq<Tag>): seq<int>
  {
    seq(|rows|, k requires 0 <= k < |rows| => rows[k].id)
  }

  function ReviewTagIds(rows: seq<ReviewTag>): seq<int>
  {
    seq(|rows|, k requires 0 <= k < |rows| => rows[k].id)
  }

  function ReviewReviewTagIds(rows: seq<ReviewReviewTag>): seq<int>
  {
    seq(|rows|, k requires 0 <= k < |rows| => rows[k].id)
  }

  /** A primary-key column: no value occurs twice. */
  predicate Distinct(ids: seq<int>)
  {
    forall i, j :: 0 <= i < j < |ids| ==> ids[i] != ids[j]
  }

  /**
   The id an insert receives: one more than the largest id in the table, or 1
   when no id is positive (SQLite's rowid choice without AUTOINCREMENT, for
   the positive ids the handlers issue). Callers rely only on its being fresh.
   */
  function NextId(ids: seq<int>): (n: int)
    ensures n >= 1
    ensures forall k :: 0 <= k < |ids| ==> ids[k] < n
    ensures n !in ids
  {
    if ids == [] then 1
    else
      var m := NextId(ids[..|ids| - 1]);
      if ids[|ids| - 1] < m then m else ids[|ids| - 1] + 1
  }

  /** Appending a row whose id is fresh keeps the key column distinct. */
  lemma {:induction false} DistinctSnoc(ids: seq<int>, x: int)
    requires Distinct(ids) && x !in ids
    ensures Distinct(ids + [x])
  {
    var s := ids + [x];
    forall i, j | 0 <= i < j < |s| ensures s[i] != s[j] {
      if j == |ids| {
        assert s[i] == ids[i];
      } else {
        assert s[i] == ids[i] && s[j] == ids[j];
      }
    }
  }

  /** Putting a row with a fresh id in front keeps the key column distinct. */
  lemma DistinctCons(x: int, ids: seq<int>)
    requires Distinct(ids) && x !in ids
    ensures Distinct([x] + ids)
  {
    var s := [x] + ids;
    forall i, j | 0 <= i < j < |s| ensures s[i] != s[j] {
      assert s[j] == ids[j - 1];
      if i > 0 {
        assert s[i] == ids[i - 1];
      }
    }
  }

  /**
   Taking one entry out of a distinct key column leaves it distinct, and
   removes exactly that key.
   */
  lemma {:induction false} DistinctRemoveAt(ids: seq<int>, k: nat)
    requires Distinct(ids) && k < |ids|
    ensures Distinct(ids[..k] + ids[k + 1..])
    ensures forall x :: x in ids[..k] + ids[k + 1..] <==> x in ids && x != ids[k]
  {
    var s := ids[..k] + ids[k + 1..];
    assert forall i :: 0 <= i < |s| ==> s[i] == ids[if i < k then i else i + 1];
    forall x | x in ids && x != ids[k] ensures x in s {
      var i :| 0 <= i < |ids| && ids[i] == x;
      assert s[if i < k then i else i - 1] == x;
    }
  }
}
