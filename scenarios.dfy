/**
 The flows the repository's tests drive through the handlers, extended with
 steps no test performs (a second delete, an attach of a deleted tag), run
 against a fresh, empty database and stated as what a client can conclude
 from the handlers' contracts alone.
 */
module Scenarios {
  import opened Model
  import opened Service

  /**
   Create a review and a tag, attach the tag, list the reviews: the attach
   returns the review as it was and adds one link, and the listing shows the
   review.
   */
  method CreateAttachList() returns (review: ReviewResponse, attached: Result<ReviewResponse>,
                                     links: nat, listed: seq<Review>)
    ensures review.text == "Test Review" && !review.isTagged
    ensures attached == Ok(review)
    ensures links == 1
    ensures listed == [Review(review.id, "Test Review", false)]
  {
    var store := new Store();
    review := store.CreateReview(ReviewCreate("Test Review", false));
    var tag := store.CreateTag(TagCreate("TestTag"));
    assert ReviewIds(store.reviews) == [review.id];
    assert TagIds(store.tags) == [tag.id];
    assert KnownTagIds(store.tags, [tag.id]) == [tag.id];
    attached := store.AddTagsToReview(review.id, ReviewTagCreate([tag.id]));
    links := |store.reviewTags|;
    listed := store.GetReviews(0, 10, []);
  }

  /**
   Two tags with the same name coexist under different ids; deleting the
   first returns it. Beyond the tests: deleting it again is NotFound, and
   attaching its id afterwards adds no link.
   */
  method DuplicateNamesThenDelete() returns (first: TagResponse, second: TagResponse,
                                             deleted: Result<TagResponse>, again: Result<TagResponse>,
                                             links: nat)
    ensures first.name == "TestTag" && second.name == "TestTag"
    ensures first.id != second.id
    ensures deleted == Ok(first)
    ensures again == Err(NotFound("Tag not found"))
    ensures links == 0
  {
    var store := new Store();
    first := store.CreateTag(TagCreate("TestTag"));
    assert TagIds(store.tags) == [first.id];
    second := store.CreateTag(TagCreate("TestTag"));
    assert TagIds(store.tags) == [first.id, second.id];
    deleted := store.DeleteTag(first.id);
    again := store.DeleteTag(first.id);
    var review := store.CreateReview(ReviewCreate("Test Review", false));
    assert ReviewIds(store.reviews) == [review.id];
    assert KnownTagIds(store.tags, [first.id]) == [];
    var attached := store.AddTagsToReview(review.id, ReviewTagCreate([first.id]));
    links := |store.reviewTags|;
  }
}
