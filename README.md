# Reviews and tags: the request handlers over four tables

A model of a small review-tagging backend. The backend keeps four tables:

- `reviews`: id, text, is_tagged.
- `tags`: id, name.
- `review_tags`: links one tag to one review. Each row has an `is_ai_tag` flag that defaults to false.
- `review_review_tags`: links a review to a `review_tags` row.

It serves five requests:

- create a review;
- create a tag;
- delete a tag, together with every link to it;
- attach a list of tag ids to a review;
- list reviews with `skip`/`limit` and an optional filter.

The model has three modules:

- `Model` (`model.dfy`) holds the row, request and response shapes as datatypes. It also holds the primary-key facts: `Distinct` says a key column has no repeats, and `NextId` picks a fresh id.
- `Service` (`service.dfy`) holds the `Store` class. Its four fields are the four tables, each a sequence of rows in insertion order. The handlers are methods that update those fields as one atomic step. Listing is a pure function of the store. The table-level functions the handlers are specified by live beside the class, with their own lemmas.
- `Scenarios` (`scenarios.dfy`) replays the flows of the repository's tests on a fresh store, and extends them with steps no test performs but the handlers define.

`Store.Valid()` says every primary key is unique within its table. SQLite guarantees this, so every handler requires and keeps it. `Store.Consistent()` says no `review_tags` row dangles and none is marked as an AI tag. Each handler keeps it: `old(Consistent()) ==> Consistent()`. The two 404 responses are the error value `Err(NotFound(detail))`.

The listing filter follows the code. It matches `review_review_tags.review_tag_id` against the given ids, so it compares them with link-row ids, not tag ids. No handler ever writes `review_review_tags`. So on a database that started empty, a filtered listing is always empty (`Service.FilteredFromEmptyStore`).

## Model

| member | source | states |
|---|---|---|
| `Model.NextId` | model.py:12 | an inserted row's id is at least 1 and greater than every id in its table, hence held by no current row |
| `Model.DistinctSnoc` | model.py:25 | appending a row whose id is fresh keeps the table's primary key unique |
| `Model.DistinctRemoveAt` | main.py:82 | deleting one row keeps the primary key unique and removes exactly that row's id |
| `Model.ViewsAreFaithful` | model.py:48-56 | `ReviewResponse` and `TagResponse` carry every column of their row, so a response determines the row |
| `Service.ReviewIndex` | main.py:27 | the lookup finds the first review with the id; it finds nothing exactly when no review has that id |
| `Service.TagIndex` | main.py:32 | the lookup finds the first tag with the id; it finds nothing exactly when no tag has that id |
| `Service.KnownTagIds` | main.py:31-35 | the ids the attach loop links are requested ids that name an existing tag, never more than were requested |
| `Service.KnownTagIdsSnoc` | main.py:31-35 | each loop step extends the linked ids by the current id exactly when a tag has it, so requested order is kept |
| `Service.KnownTagIdsCount` | main.py:31-35 | an id naming a tag is linked as many times as it is requested (duplicates repeated); an id naming no tag is never linked |
| `Service.WithoutTagLinks` | main.py:81 | after the bulk delete no link names the tag, and every link naming another tag survives |
| `Service.WithoutTagLinksCount` | main.py:81 | the bulk delete keeps each other link as many times as it occurred and removes every link of the tag |
| `Service.WithoutTagLinksDistinct` | main.py:81 | the bulk delete keeps the `review_tags` primary key unique |
| `Service.TagIdsRemoveAt` | main.py:82 | deleting the tag row removes exactly its id from `tags` and keeps the key unique |
| `Service.Matching` | main.py:49-51 | a review passes the filter exactly when some `review_review_tags` row for it has a `review_tag_id` among the given ids |
| `Service.Page` | main.py:53 | offset/limit returns at most `limit` rows, the ones starting at position `skip`, and nothing when `skip` is past the end |
| `Service.Store.constructor` | main.py:9 | the freshly created schema holds four empty tables, which satisfy both store invariants |
| `Service.Store.AddTagsToReview` | main.py:21-39 | unknown review: NotFound and nothing changes; otherwise one link per requested id that names a tag, in order and with duplicates, is appended, each with `is_ai_tag` false; the review comes back unchanged (`is_tagged` is not set); other tables untouched |
| `Service.Store.AttachKnownTags` | main.py:31-35 | the loop appends exactly the links for the known ids and leaves every earlier link in place |
| `Service.Store.AttachOne` | main.py:32-35 | one loop step appends a link for the id exactly when a tag has it, and leaves the earlier links in place |
| `Service.Store.InsertReviewTag` | main.py:34-35 | a new link has a fresh id, the given review and tag, and `is_ai_tag` false |
| `Service.Store.GetReviews` | main.py:42-55 | reads only; at most `limit` stored reviews; with no filter exactly `reviews[skip..]` cut at `limit`; with a filter each result matches a `review_review_tags` row, and nothing is returned while that table is empty |
| `Service.Store.CreateReview` | main.py:58-64 | appends exactly one review with the given text and flag and an id no current review has, and returns it; other tables untouched |
| `Service.Store.CreateTag` | main.py:67-72 | appends exactly one tag with the given name and an id no current tag has (names may repeat), and returns it; other tables untouched |
| `Service.Store.DeleteTag` | main.py:75-84 | unknown tag: NotFound and nothing changes; otherwise every link of the tag is deleted and the tag row is removed with all other tags kept in order; the deleted tag's values are returned; reviews and `review_review_tags` untouched |
| `Service.Store.Handle` | main.py:21-84 | no handler writes `review_review_tags`, none updates or deletes a review, and each keeps the store invariants |
| `Service.Store.Run` | main.py:21-84 | over any sequence of requests, `review_review_tags` stays as it was and `reviews` only grows |
| `Service.FilteredFromEmptyStore` | main.py:49-51 | on a database that started empty, a listing with a non-empty filter is empty whatever requests came before |
| `Scenarios.CreateAttachList` | test.py:44-75 | create a review and a tag, attach the tag: the attach returns the review and adds one link, and the listing shows the review |
| `Scenarios.DuplicateNamesThenDelete` | test.py:77-85 | as in the test, creating a tag and deleting it returns the tag; beyond the test: two tags with one name coexist under distinct ids (as the suite's shared database allows), a second delete is NotFound (main.py:77-79), and attaching the deleted id adds no link (main.py:31-35) |

## Left out

- HTTP routing, dependency injection and status codes are not modelled. A 404 is the value `Err(NotFound(detail))`, with the detail strings of the code.
- Sessions, `commit` and `refresh` are not modelled. Each handler is one atomic step on the tables.
- Storage failures are not modelled. A failure inside a handler skips its `commit` (main.py:37, 62, 71, 83), and closing the session (main.py:17-18) rolls back all of the handler's uncommitted changes. So each handler takes effect entirely or not at all, which is what the atomic methods of the model describe.
- The engine, schema creation and server startup are not modelled. The empty store built by the constructor stands for the freshly created database.
- Request validation and coercion are not modelled, beyond the field shapes of the request datatypes.
- Column length limits (`String(2048)`, `String(50)`) are not modelled, because SQLite does not enforce them.
- Id generation: `NextId` takes one more than the largest id, or 1 when no id is positive. This is SQLite's choice without AUTOINCREMENT for the positive ids the handlers issue. The handlers promise only that the id is fresh among current rows, not that ids never repeat over time.
- Service.Matching: the SQL join yields one row per matching `review_review_tags` row, and offset and limit count those join rows. Repeated reviews are then merged into one by primary key. The model keeps each matching review once, in table order, before paging. So it does not capture that `skip` counts repeats, or that a page can hold fewer than `limit` distinct reviews.
- Service.Store.GetReviews: with a filter, the contract says each returned review is stored and matches. Which page of the matching reviews it returns is defined by `Service.Matching` and `Service.Page`, not restated in the contract.
- Negative `skip` or `limit` values are not modelled. Both are natural numbers here.
- Service.Store.AddTagsToReview: ids are unbounded integers here, but the store keeps 64-bit integers. A `review_id` or a `tag_ids` entry outside [-2^63, 2^63) makes the database driver raise, so the request fails as a server error and its transaction is rolled back. The model instead returns NotFound or skips that entry.
- Service.Store.DeleteTag: a `tag_id` outside [-2^63, 2^63) is a driver error (a server error) in the store, where the model returns NotFound.
- Service.Store.GetReviews: a filter id, `skip` or `limit` outside the 64-bit range is a driver error in the store, where the model returns a list. The model compares an out-of-range filter id like any other, so the result holds the reviews matching any of the filter ids.
- Row order is insertion order. No other ordering of query results is modelled.
- Foreign keys are not enforced by the store, as in SQLite's default. That no link dangles follows from the handlers (`Store.Consistent`).
