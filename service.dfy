/**
 The five request handlers, acting on the four tables. Each handler is one
 atomic step on the in-memory tables; the tables keep rows in insertion order.
 */
module Service {
  import opened Model

  // ---- lookups (`query(X).filter(X.id == id).first()`) ----

  /** Position of the first review with the given id, if any. */
  function ReviewIndex(rows: seq<Review>, id: int): (r: Option<nat>)
    ensures r.Some? ==> r.value < |rows| && rows[r.value].id == id
    ensures r.Some? ==> forall j :: 0 <= j < r.value ==> rows[j].id != id
    ensures r.None? <==> id !in ReviewIds(rows)
  {
    if rows == [] then None
    else
      assert ReviewIds(rows) == [rows[0].id] + ReviewIds(rows[1..]);
      if rows[0].id == id then Some(0)
      else match ReviewIndex(rows[1..], id)
        case None => None
        case Some(k) => Some(k + 1)
  }

  /** Position of the first tag with the given id, if any. */
  function TagIndex(rows: seq<Tag>, id: int): (r: Option<nat>)
    ensures r.Some? ==> r.value < |rows| && rows[r.value].id == id
    ensures r.Some? ==> forall j :: 0 <= j < r.value ==> rows[j].id != id
    ensures r.None? <==> id !in TagIds(rows)
  {
    if rows == [] then None
    else
      assert TagIds(rows) == [rows[0].id] + TagIds(rows[1..]);
      if rows[0].id == id then Some(0)
      else match TagIndex(rows[1..], id)
        case None => None
        case Some(k) => Some(k + 1)
  }

  // ---- attaching tags ----

  /**
   The entries of `tagIds` that name an existing tag, in their order and with
   their repetitions: the tag ids the attach loop creates a link for.
   */
  function KnownTagIds(tags: seq<Tag>, tagIds: seq<int>): (r: seq<int>)
    ensures |r| <= |tagIds|
    ensures forall x :: x in r ==> x in tagIds && x in TagIds(tags)
  {
    if tagIds == [] then []
    else (if tagIds[0] in TagIds(tags) then [tagIds[0]] else []) + KnownTagIds(tags, tagIds[1..])
  }

  /** Handling one more requested id extends the known ids by it exactly when it names a tag. */
  lemma {:induction false} KnownTagIdsSnoc(tags: seq<Tag>, tagIds: seq<int>, x: int)
    ensures KnownTagIds(tags, tagIds + [x])
            == KnownTagIds(tags, tagIds) + (if x in TagIds(tags) then [x] else [])
  {
    var last := if x in TagIds(tags) then [x] else [];
    if tagIds == [] {
      assert ([] + [x])[1..] == [];
      assert KnownTagIds(tags, [x]) == last + KnownTagIds(tags, []);
    } else {
      var head := if tagIds[0] in TagIds(tags) then [tagIds[0]] else [];
      assert (tagIds + [x])[0] == tagIds[0];
      assert (tagIds + [x])[1..] == tagIds[1..] + [x];
      assert KnownTagIds(tags, tagIds + [x]) == head + KnownTagIds(tags, tagIds[1..] + [x]);
      KnownTagIdsSnoc(tags, tagIds[1..], x);
      assert KnownTagIds(tags, tagIds) == head + KnownTagIds(tags, tagIds[1..]);
    }
  }

  /**
   Every requested id that names a tag is attached as many times as it is
   requested; an id naming no tag is never attached.
   */
  lemma {:induction false} KnownTagIdsCount(tags: seq<Tag>, tagIds: seq<int>, x: int)
    ensures multiset(KnownTagIds(tags, tagIds))[x]
            == if x in TagIds(tags) then multiset(tagIds)[x] else 0
  {
    if tagIds != [] {
      KnownTagIdsCount(tags, tagIds[1..], x);
      assert tagIds == [tagIds[0]] + tagIds[1..];
    }
  }

  /** `rows` are the links created for `reviewId`, one per entry of `tagIds`, all with the default `isAiTag`. */
  predicate AttachedLinks(rows: seq<ReviewTag>, reviewId: int, tagIds: seq<int>)
  {
    |rows| == |tagIds| &&
    forall k :: 0 <= k < |rows| ==>
      rows[k].reviewId == reviewId && rows[k].tagId == tagIds[k] && !rows[k].isAiTag
  }

  /**
   One step of the attach loop: appending one link for `reviewId` to the
   table keeps the rows there before the loop as a prefix and extends the
   links the loop has created by that one.
   */
  lemma AppendLink(before: seq<ReviewTag>, prev: seq<ReviewTag>, cur: seq<ReviewTag>,
                   reviewId: int, known: seq<int>)
    requires |before| <= |prev| && prev[..|before|] == before
    requires AttachedLinks(prev[|before|..], reviewId, known)
    requires |cur| == |prev| + 1 && cur[..|prev|] == prev
    requires cur[|prev|].reviewId == reviewId && !cur[|prev|].isAiTag
    ensures cur[..|before|] == before
    ensures AttachedLinks(cur[|before|..], reviewId, known + [cur[|prev|].tagId])
  {
    assert cur == prev + [cur[|prev|]];
    assert cur[|before|..] == prev[|before|..] + [cur[|prev|]];
  }

  // ---- deleting a tag ----

  /** The `review_tags` rows that survive the bulk delete of the links of `tagId`, in order. */
  function WithoutTagLinks(rows: seq<ReviewTag>, tagId: int): (r: seq<ReviewTag>)
    ensures |r| <= |rows|
    ensures forall rt :: rt in r <==> rt in rows && rt.tagId != tagId
  {
    if rows == [] then []
    else (if rows[0].tagId == tagId then [] else [rows[0]]) + WithoutTagLinks(rows[1..], tagId)
  }

  /** The bulk delete removes every link of `tagId` and keeps every other row as often as it occurred. */
  lemma {:induction false} WithoutTagLinksCount(rows: seq<ReviewTag>, tagId: int, rt: ReviewTag)
    ensures multiset(WithoutTagLinks(rows, tagId))[rt] == if rt.tagId == tagId then 0 else multiset(rows)[rt]
  {
    if rows != [] {
      WithoutTagLinksCount(rows[1..], tagId, rt);
      assert rows == [rows[0]] + rows[1..];
    }
  }

  /** The bulk delete keeps the primary key of `review_tags` distinct. */
  lemma {:induction false} WithoutTagLinksDistinct(rows: seq<ReviewTag>, tagId: int)
    requires Distinct(ReviewTagIds(rows))
    ensures Distinct(ReviewTagIds(WithoutTagLinks(rows, tagId)))
  {
    if rows != [] {
      var ids := ReviewTagIds(rows);
      var tail := rows[1..];
      assert ReviewTagIds(tail) == ids[1..];
      WithoutTagLinksDistinct(tail, tagId);
      var rest := WithoutTagLinks(tail, tagId);
      assert ids[0] == rows[0].id;
      if rows[0].tagId != tagId {
        forall j | 0 <= j < |rest| ensures rest[j].id != rows[0].id {
          assert rest[j] in tail;
          var m :| 0 <= m < |tail| && tail[m] == rest[j];
          assert ids[m + 1] == rest[j].id;
        }
        DistinctCons(rows[0].id, ReviewTagIds(rest));
        assert ReviewTagIds([rows[0]] + rest) == [rows[0].id] + ReviewTagIds(rest);
        assert WithoutTagLinks(rows, tagId) == [rows[0]] + rest;
      } else {
        assert WithoutTagLinks(rows, tagId) == rest;
      }
    }
  }

  /** Removing the tag at position `k` removes exactly its id from the `tags` key column. */
  lemma TagIdsRemoveAt(tags: seq<Tag>, k: nat)
    requires Distinct(TagIds(tags)) && k < |tags|
    ensures Distinct(TagIds(tags[..k] + tags[k + 1..]))
    ensures forall x :: x in TagIds(tags[..k] + tags[k + 1..]) <==> x in TagIds(tags) && x != tags[k].id
  {
    var ids := TagIds(tags);
    assert TagIds(tags[..k] + tags[k + 1..]) == ids[..k] + ids[k + 1..];
    DistinctRemoveAt(ids, k);
    assert ids[k] == tags[k].id;
  }

  // ---- listing reviews ----

  /** Review `reviewId` has a `review_review_tags` row whose `reviewTagId` is one of `tagIds`. */
  predicate Listed(links: seq<ReviewReviewTag>, reviewId: int, tagIds: seq<int>)
  {
    exists l :: l in links && l.reviewId == reviewId && l.reviewTagId in tagIds
  }

  /** The reviews the join with `review_review_tags` keeps, in table order. */
  function Matching(reviews: seq<Review>, links: seq<ReviewReviewTag>, tagIds: seq<int>): (r: seq<Review>)
    ensures |r| <= |reviews|
    ensures forall x :: x in r <==> x in reviews && Listed(links, x.id, tagIds)
  {
    if reviews == [] then []
    else
      (if Listed(links, reviews[0].id, tagIds) then [reviews[0]] else [])
      + Matching(reviews[1..], links, tagIds)
  }

  /** `offset(skip).limit(limit)`: at most `limit` rows, starting at position `skip`. */
  function Page<T>(rows: seq<T>, skip: nat, limit: nat): (r: seq<T>)
    ensures |r| <= limit
    ensures skip >= |rows| ==> r == []
    ensures skip < |rows| ==> |r| == if limit <= |rows| - skip then limit else |rows| - skip
    ensures forall k :: 0 <= k < |r| ==> skip + k < |rows| && r[k] == rows[skip + k]
  {
    if skip >= |rows| then []
    else rows[skip..if skip + limit <= |rows| then skip + limit else |rows|]
  }

  /** A request as it reaches one of the handlers. */
  datatype Request =
    | CreateReviewRequest(review: ReviewCreate)
    | CreateTagRequest(tag: TagCreate)
    | AddTagsRequest(reviewId: int, body: ReviewTagCreate)
    | DeleteTagRequest(tagId: int)

  /** The relational store: the four tables, each a sequence of rows in insertion order. */
  class Store {
    var reviews: seq<Review>
    var tags: seq<Tag>
    var reviewTags: seq<ReviewTag>
    var reviewReviewTags: seq<ReviewReviewTag>

    /** Every table's primary key is unique within that table. */
    predicate Valid()
      reads this
    {
      Distinct(ReviewIds(reviews)) && Distinct(TagIds(tags)) &&
      Distinct(ReviewTagIds(reviewTags)) && Distinct(ReviewReviewTagIds(reviewReviewTags))
    }

    /**
     No `review_tags` row dangles: each names an existing review and an
     existing tag, and none is marked as an AI tag.
     */
    predicate Consistent()
      reads this
    {
      forall rt :: rt in reviewTags ==>
        rt.reviewId in ReviewIds(reviews) && rt.tagId in TagIds(tags) && !rt.isAiTag
    }

    /** The empty database the schema is created as. */
    constructor ()
      ensures Valid() && Consistent()
      ensures reviews == [] && tags == [] && reviewTags == [] && reviewReviewTags == []
    {
      reviews, tags, reviewTags, reviewReviewTags := [], [], [], [];
    }

    /** POST /reviews/{review_id}/tags */
    method AddTagsToReview(reviewId: int, req: ReviewTagCreate) returns (res: Result<ReviewResponse>)
      requires Valid()
      modifies this
      ensures Valid()
      ensures reviews == old(reviews) && tags == old(tags) && reviewReviewTags == old(reviewReviewTags)
      ensures reviewId !in ReviewIds(reviews) ==>
                res == Err(NotFound("Review not found")) && reviewTags == old(reviewTags)
      ensures reviewId in ReviewIds(reviews) ==>
                && res.Ok? && res.value.id == reviewId
                && Review(res.value.id, res.value.text, res.value.isTagged) in reviews
                && |reviewTags| >= |old(reviewTags)|
                && reviewTags[..|old(reviewTags)|] == old(reviewTags)
                && AttachedLinks(reviewTags[|old(reviewTags)|..], reviewId, KnownTagIds(tags, req.tagIds))
      ensures old(Consistent()) ==> Consistent()
    {
      var found := ReviewIndex(reviews, reviewId);
      if found.None? {
        return Err(NotFound("Review not found"));
      }
      var review := reviews[found.value];
      assert ReviewIds(reviews)[found.value] == reviewId;
      AttachKnownTags(reviewId, req.tagIds);
      res := Ok(ReviewView(review));
    }

    /**
     The loop of the attach handler: one new link per entry of `tagIds` that
     names a tag, in order; other entries are skipped without error.
     */
    method AttachKnownTags(reviewId: int, tagIds: seq<int>)
      requires Valid()
      modifies this
      ensures Valid()
      ensures reviews == old(reviews) && tags == old(tags) && reviewReviewTags == old(reviewReviewTags)
      ensures |reviewTags| >= |old(reviewTags)| && reviewTags[..|old(reviewTags)|] == old(reviewTags)
      ensures AttachedLinks(reviewTags[|old(reviewTags)|..], reviewId, KnownTagIds(tags, tagIds))
      ensures old(Consistent()) && reviewId in ReviewIds(reviews) ==> Consistent()
    {
      ghost var before := reviewTags;
      ghost var wasConsistent := Consistent() && reviewId in ReviewIds(reviews);
      for i := 0 to |tagIds|
        invariant Valid()
        invariant reviews == old(reviews) && tags == old(tags) && reviewReviewTags == old(reviewReviewTags)
        invariant |reviewTags| >= |before| && reviewTags[..|before|] == before
        invariant AttachedLinks(reviewTags[|before|..], reviewId, KnownTagIds(tags, tagIds[..i]))
        invariant wasConsistent ==> Consistent()
      {
        AttachOne(reviewId, tagIds[i], before, KnownTagIds(tags, tagIds[..i]));
        KnownTagIdsSnoc(tags, tagIds[..i], tagIds[i]);
        assert tagIds[..i + 1] == tagIds[..i] + [tagIds[i]];
      }
      assert tagIds[..|tagIds|] == tagIds;
    }

    /**
     One iteration of the attach loop: a link for `tagId` is appended when a
     tag has that id, and nothing happens otherwise.
     */
    method AttachOne(reviewId: int, tagId: int, ghost before: seq<ReviewTag>, ghost known: seq<int>)
      requires Valid()
      requires |before| <= |reviewTags| && reviewTags[..|before|] == before
      requires AttachedLinks(reviewTags[|before|..], reviewId, known)
      modifies this
      ensures Valid()
      ensures reviews == old(reviews) && tags == old(tags) && reviewReviewTags == old(reviewReviewTags)
      ensures |before| <= |reviewTags| && reviewTags[..|before|] == before
      ensures AttachedLinks(reviewTags[|before|..], reviewId,
                            known + (if tagId in TagIds(tags) then [tagId] else []))
      ensures tagId !in TagIds(tags) ==> reviewTags == old(reviewTags)
      ensures tagId in TagIds(tags) ==>
                && |reviewTags| == |old(reviewTags)| + 1
                && reviewTags[..|old(reviewTags)|] == old(reviewTags)
                && reviewTags[|old(reviewTags)|].id !in ReviewTagIds(old(reviewTags))
                && reviewTags[|old(reviewTags)|] == ReviewTag(reviewTags[|old(reviewTags)|].id, false, tagId, reviewId)
      ensures old(Consistent()) && reviewId in ReviewIds(reviews) ==> Consistent()
    {
      var tag := TagIndex(tags, tagId);
      if tag.Some? {
        assert TagIds(tags)[tag.value] == tagId;
        ghost var prev := reviewTags;
        InsertReviewTag(reviewId, tagId);
        AppendLink(before, prev, reviewTags, reviewId, known);
      } else {
        assert known + [] == known;
      }
    }

    /** `db.add(ReviewTag(review_id=..., tag_id=...))`: one new link with a fresh id and the default `isAiTag`. */
    method InsertReviewTag(reviewId: int, tagId: int)
      requires Valid()
      modifies this
      ensures Valid()
      ensures reviews == old(reviews) && tags == old(tags) && reviewReviewTags == old(reviewReviewTags)
      ensures |reviewTags| == |old(reviewTags)| + 1 && reviewTags[..|old(reviewTags)|] == old(reviewTags)
      ensures reviewTags[|old(reviewTags)|].id !in ReviewTagIds(old(reviewTags))
      ensures reviewTags[|old(reviewTags)|] == ReviewTag(reviewTags[|old(reviewTags)|].id, false, tagId, reviewId)
      ensures old(Consistent()) && reviewId in ReviewIds(reviews) && tagId in TagIds(tags) ==> Consistent()
    {
      var row := ReviewTag(NextId(ReviewTagIds(reviewTags)), false, tagId, reviewId);
      DistinctSnoc(ReviewTagIds(reviewTags), row.id);
      assert ReviewTagIds(reviewTags + [row]) == ReviewTagIds(reviewTags) + [row.id];
      reviewTags := reviewTags + [row];
    }

    /** GET /reviews */
    function GetReviews(skip: nat, limit: nat, tagIds: seq<int>): (r: seq<Review>)
      reads this
      ensures |r| <= limit
      ensures forall k :: 0 <= k < |r| ==> r[k] in reviews
      ensures tagIds == [] ==>
                && |r| == (if skip >= |reviews| then 0
                           else if limit <= |reviews| - skip then limit else |reviews| - skip)
                && forall k :: 0 <= k < |r| ==> r[k] == reviews[skip + k]
      ensures tagIds != [] ==> forall k :: 0 <= k < |r| ==> Listed(reviewReviewTags, r[k].id, tagIds)
      ensures tagIds != [] && reviewReviewTags == [] ==> r == []
    {
      var candidates := if tagIds == [] then reviews else Matching(reviews, reviewReviewTags, tagIds);
      var r := Page(candidates, skip, limit);
      assert forall k :: 0 <= k < |r| ==> r[k] in candidates;
      assert tagIds != [] && |r| > 0 ==> Listed(reviewReviewTags, r[0].id, tagIds);
      r
    }

    /** POST /reviews */
    method CreateReview(req: ReviewCreate) returns (resp: ReviewResponse)
      requires Valid()
      modifies this
      ensures Valid()
      ensures resp.id !in ReviewIds(old(reviews))
      ensures resp.text == req.text && resp.isTagged == req.isTagged
      ensures reviews == old(reviews) + [Review(resp.id, req.text, req.isTagged)]
      ensures tags == old(tags) && reviewTags == old(reviewTags) && reviewReviewTags == old(reviewReviewTags)
      ensures old(Consistent()) ==> Consistent()
    {
      var row := Review(NextId(ReviewIds(reviews)), req.text, req.isTagged);
      DistinctSnoc(ReviewIds(reviews), row.id);
      assert ReviewIds(reviews + [row]) == ReviewIds(reviews) + [row.id];
      reviews := reviews + [row];
      resp := ReviewView(row);
    }

    /** POST /tags */
    method CreateTag(req: TagCreate) returns (resp: TagResponse)
      requires Valid()
      modifies this
      ensures Valid()
      ensures resp.id !in TagIds(old(tags))
      ensures resp.name == req.name
      ensures tags == old(tags) + [Tag(resp.id, req.name)]
      ensures reviews == old(reviews) && reviewTags == old(reviewTags) && reviewReviewTags == old(reviewReviewTags)
      ensures old(Consistent()) ==> Consistent()
    {
      var row := Tag(NextId(TagIds(tags)), req.name);
      DistinctSnoc(TagIds(tags), row.id);
      assert TagIds(tags + [row]) == TagIds(tags) + [row.id];
      tags := tags + [row];
      resp := TagView(row);
    }

    /** DELETE /tags/{tag_id} */
    method DeleteTag(tagId: int) returns (res: Result<TagResponse>)
      requires Valid()
      modifies this
      ensures Valid()
      ensures reviews == old(reviews) && reviewReviewTags == old(reviewReviewTags)
      ensures tagId !in TagIds(old(tags)) ==>
                res == Err(NotFound("Tag not found")) && tags == old(tags) && reviewTags == old(reviewTags)
      ensures tagId in TagIds(old(tags)) ==>
                && tagId !in TagIds(tags)
                && (forall rt :: rt in reviewTags ==> rt.tagId != tagId)
                && reviewTags == WithoutTagLinks(old(reviewTags), tagId)
                && exists k :: 0 <= k < |old(tags)| && old(tags)[k].id == tagId
                                 && tags == old(tags)[..k] + old(tags)[k + 1..]
                                 && res == Ok(TagView(old(tags)[k]))
      ensures old(Consistent()) ==> Consistent()
    {
      var found := TagIndex(tags, tagId);
      if found.None? {
        return Err(NotFound("Tag not found"));
      }
      var k := found.value;
      var tag := tags[k];
      ghost var wasConsistent := Consistent();
      ghost var oldTags := tags;
      WithoutTagLinksDistinct(reviewTags, tagId);
      reviewTags := WithoutTagLinks(reviewTags, tagId);
      TagIdsRemoveAt(tags, k);
      tags := tags[..k] + tags[k + 1..];
      assert oldTags[k].id == tagId;
      res := Ok(TagView(tag));
      if wasConsistent {
        forall rt | rt in reviewTags ensures rt.tagId in TagIds(tags) {
          assert rt.tagId in TagIds(oldTags) && rt.tagId != tagId;
        }
      }
    }

    /** Serves one request with the handler it is routed to. */
    method Handle(req: Request)
      requires Valid()
      modifies this
      ensures Valid()
      ensures reviewReviewTags == old(reviewReviewTags)
      ensures |reviews| >= |old(reviews)| && reviews[..|old(reviews)|] == old(reviews)
      ensures old(Consistent()) ==> Consistent()
    {
      match req
      case CreateReviewRequest(r) =>
        var _ := CreateReview(r);
      case CreateTagRequest(t) =>
        var _ := CreateTag(t);
      case AddTagsRequest(reviewId, rts) =>
        var _ := AddTagsToReview(reviewId, rts);
      case DeleteTagRequest(tagId) =>
        var _ := DeleteTag(tagId);
    }

    /** Serves the requests one after another. */
    method Run(reqs: seq<Request>)
      requires Valid()
      modifies this
      ensures Valid()
      ensures reviewReviewTags == old(reviewReviewTags)
      ensures |reviews| >= |old(reviews)| && reviews[..|old(reviews)|] == old(reviews)
      ensures old(Consistent()) ==> Consistent()
    {
      ghost var wasConsistent := Consistent();
      for i := 0 to |reqs|
        invariant Valid()
        invariant reviewReviewTags == old(reviewReviewTags)
        invariant |reviews| >= |old(reviews)| && reviews[..|old(reviews)|] == old(reviews)
        invariant wasConsistent ==> Consistent()
      {
        Handle(reqs[i]);
      }
    }
  }

  /**
   No handler writes `review_review_tags`, so on a database that started
   empty, listing reviews filtered by any non-empty `tag_ids` returns nothing,
   whatever requests were served before.
   */
  method FilteredFromEmptyStore(reqs: seq<Request>, skip: nat, limit: nat, tagIds: seq<int>)
    returns (listed: seq<Review>)
    requires tagIds != []
    ensures listed == []
  {
    var store := new Store();
    store.Run(reqs);
    listed := store.GetReviews(skip, limit, tagIds);
  }
}
