# Deals, reviews and the notification feed

A Dafny model of three pieces of an escrow-deal backend (Express and Mongoose),
written as pure state transitions over in-memory collections:

- **Deal numbering and roles** (`db/models/Deal.js`). Saving a new deal advances
  the `deals` counter by an upserting `$inc` of one and stamps the new value into
  `dId`. `userHasAccess` and `getUserRole` decide whether a user is a participant
  and which side they are on.
- **Review creation** (`POST /user/:id/addReview` in `routes/users.js`). The
  request is validated, a second review by the same author for the same deal is
  refused, and otherwise one review is appended.
- **Notification feed** (`GET /notifications` in `routes/users.js`). The user's
  `message` notifications are grouped per deal and joined with the deal. Groups
  whose deal is gone are dropped. The user's other notifications are listed one
  by one. Both lists are concatenated and sorted newest first.
- **User view** (`GET /info`). The stored user is projected into the view the
  client sees: the type, and the URL of the profile picture.

Modules: `Common` (ids, `Option`, `Result`, database outcomes), `Counters`, `Deals`,
`Reviews`, `Feed`, `Profile`, one file each.

Ids are opaque strings, because the source compares ids through `toString()` and
`===`. Timestamps are integers (milliseconds). The database is not modelled. Each
database call becomes a `DbOutcome` parameter: the call either succeeded or
reported an error. The stored collections are values: counters are a
`map<string, int>`, deals a map keyed by `_id`, reviews and notifications
sequences.

In these places the code does less than its surroundings suggest; the model
follows the code:

- The review handler does **not** refuse callers who are not a participant of the
  deal. The participant query runs, but its result is discarded. Only a failure of
  that query changes the answer (`Reviews.ParticipationIsNotChecked`,
  `Reviews.OutsiderReviewIsStored`).
- A duplicate review is answered with a 500 carrying the message
  `You can leave only one review for one deal`, not with a distinct conflict
  status. Database errors give a 500 with `DB Error`. Validation failures give a
  400 naming the failing fields.
- The feed puts the individual notifications first and the summaries after them,
  and then sorts. The code promises no particular order among entries with equal
  timestamps, so the model proves sortedness and permutation only.
- A failed aggregation yields no response at all, because that promise has no
  rejection handler. A failed `find` yields a 400. Neither yields a partial feed.
- Mongoose runs the `required` validator on `name` before the user's pre-save
  hook. A deal without a name is therefore rejected before the counter moves.

## Model

| member | source | states |
|---|---|---|
| Counters.Allocate | db/models/Deal.js:42-57 | The upserting increment returns the counter's previous value plus one, with a missing counter read as the default 0. The counter then holds the returned value and no other counter changes. |
| Counters.OccurrencesIsMultiplicity | db/models/Deal.js:54-61 | The number of allocations counted on a counter is the multiplicity of its name among the counters allocated. |
| Counters.AllocateAll | db/models/Deal.js:54-61 | For allocations applied one after another, the i-th returns its counter's start value plus the number of allocations on that counter up to and including it. Each counter ends at its start value plus its number of allocations. |
| Counters.AllocationsIncrease | db/models/Deal.js:54-61 | Two allocations on the same counter never return the same value, and the later one returns the larger value. |
| Counters.AllocationsHaveNoGaps | db/models/Deal.js:54-61 | Every value between the counter's start and its final value is returned by some allocation on that counter, so there are no gaps. |
| Counters.FreshCounterCountsFromOne | db/models/Deal.js:42-57 | On a counter that does not exist yet, n allocations return exactly 1, 2, ..., n in order. |
| Deals.UserHasAccess | db/models/Deal.js:67-69 | A user has access exactly when they are one of the deal's two parties, the seller or the buyer. |
| Deals.GetUserRole | db/models/Deal.js:67-78 | The role is seller exactly when the seller id matches, even if the buyer also matches. It is buyer exactly when only the buyer id matches. It is not false exactly when `userHasAccess` holds. |
| Deals.Save | db/models/Deal.js:51-66 | A nameless document is rejected and nothing changes. For a new document, a counter error aborts the save with that error and nothing changes. Otherwise the `deals` counter advances by exactly one, even if the insert then fails. An insert whose `_id` is already stored fails as a duplicate key, and a failed write fails with the write's error. A valid document saves whenever the database answers and, for a new document, its `_id` is free. A stored new document carries the new counter value as `dId` and differs from the input in `dId` only. A save of a document that is not new leaves the counters and `dId` alone. A failed save stores nothing. |
| Deals.CreatedDealDefaults | db/models/Deal.js:4-40 | A successfully created deal has both acceptance flags false, keeps the non-empty name and the parties it was given, and has `dId` equal to the previous counter value plus one. |
| Deals.FirstDealGetsOne | db/models/Deal.js:42-61 | When the `deals` counter does not exist yet, the first new deal gets `dId` 1. |
| Deals.SavePreservesValid | db/models/Deal.js:51-66 | Two kinds of save keep the store invariant. The first is any save of a new document, failed or not. The second is a re-save of a stored deal that keeps its `dId`. The invariant: the counter is at least 0, every stored `dId` lies between 1 and the counter, and no two stored deals share a `dId`. A failed new save keeps it too, since a consumed value only leaves a gap. |
| Deals.CreateAll | db/models/Deal.js:54-61 | Over a run of creations, each success gets a `dId` the counter had not handed out before. Successes get strictly increasing `dId`s, so no `dId` repeats. |
| Deals.CreateAllCountsUp | db/models/Deal.js:54-61 | When every creation in a run succeeds, the i-th deal gets `dId` equal to the start value plus i plus one, so a fresh counter gives 1, 2, ..., n. |
| Reviews.InvalidFields | routes/users.js:388-403 | The comment fails validation exactly when it is empty. The rating fails exactly when it is not one of "1" to "5". |
| Reviews.HasReview | routes/users.js:409-414 | The duplicate lookup finds something exactly when a stored review has this author and this deal. |
| Reviews.ParticipantDeals | routes/users.js:419-429 | The participant query finds the deal, and only that deal, exactly when it exists and the caller is its seller or buyer. |
| Reviews.ReviewOf | routes/users.js:431-438 | The new review is about the user of the route, is written by the caller, and takes comment, rating and deal from the body. |
| Reviews.AddReview | routes/users.js:387-447 | Invalid input gives a 400 naming exactly the failing fields. A valid request gets the one-review-per-deal message exactly when the duplicate lookup answers and finds an earlier review by the same author for the same deal; a database failure never carries that message. The request succeeds exactly when the input is valid, there is no such review, and every database call succeeds. Success appends exactly one review, built from the route id, the caller and the body. |
| Reviews.AddReviewKeepsOnePerPair | routes/users.js:409-439 | Requests handled one at a time keep at most one review per (author, deal) pair. |
| Reviews.RepeatedReviewFails | routes/users.js:409-417 | Repeating a request after it succeeded is refused with the one-review-per-deal message. |
| Reviews.ParticipationIsNotChecked | routes/users.js:419-439 | The answer does not depend on the stored deals, because the participant query's result is discarded. |
| Reviews.OutsiderReviewIsStored | routes/users.js:419-439 | A valid first review by someone who is neither seller nor buyer of the deal is stored. |
| Feed.Select | routes/users.js:659-671 | The selection keeps every notification addressed to the user whose type is (or, for the other branch, is not) `message`, as often as it is stored, and nothing else. |
| Feed.LastAt | routes/users.js:632-634 | A group's `$max` exists exactly when the group has notifications. It is the timestamp of one of them and no earlier than any of them. |
| Feed.Count | routes/users.js:629-631 | A group's `$sum: 1` never exceeds the number of messages. It equals that number exactly when every message is about the group's deal. |
| Feed.CountIsMultiplicity | routes/users.js:629-631 | A group's `$sum: 1` is the number of times the group's deal occurs among the deals the messages are about. |
| Feed.CountPositive | routes/users.js:629-631 | A group's `$sum: 1` is positive exactly when some notification is about that deal. |
| Feed.Groups | routes/users.js:626-636 | The groups are exactly the deals the messages are about, each once. |
| Feed.Summaries | routes/users.js:616-657 | Every entry the aggregation yields is a summary for an existing deal, holding that deal, the `$sum` count and the `$max` timestamp of the user's messages about it. |
| Feed.SummariesOf | routes/users.js:637-656 | Every summary is for a group whose deal exists. It holds that deal, and its count and timestamp are the group's `$sum` and `$max`. |
| Feed.SummariesOfCovers | routes/users.js:637-656 | Every group whose deal exists gets a summary. |
| Feed.SummariesOfDistinct | routes/users.js:626-656 | No deal is summarised twice. |
| Feed.SortByRecency | routes/users.js:679 | The sort returns a permutation of its input, newest first. |
| Feed.UserFeed | routes/users.js:674-680 | The feed is newest first and is a permutation of the user's individual notifications followed by the message summaries. |
| Feed.FeedSinglesAreTheOthers | routes/users.js:659-680 | A notification appears on its own in the feed exactly as often as it is stored, if it is addressed to the user and its type is not `message`. Otherwise it never appears on its own. |
| Feed.FeedHasNoSingleMessage | routes/users.js:659-671 | No entry listed on its own is a `message`, and each is addressed to the user. |
| Feed.FeedSummariesCountMessages | routes/users.js:618-656 | A summary in the feed is for an existing deal. Its count is the positive number of the user's messages about that deal, and its timestamp is the latest of theirs. |
| Feed.FeedSummaryExactlyWhen | routes/users.js:637-656 | A deal has a summary in the feed exactly when it exists and the user has a `message` notification about it. |
| Feed.FeedSummariesDistinct | routes/users.js:626-636 | The summaries are about pairwise different deals. |
| Feed.NewerComesFirst | routes/users.js:679 | Of two entries with different timestamps, the newer one comes first. |
| Feed.Respond | routes/users.js:615-686 | The feed is returned exactly when both reads succeed. A failed aggregation sends nothing. A failed `find` sends a 400 with its error. No partial feed is ever sent. |
| Profile.ViewOf | routes/users.js:354-361 | The view copies id, username, email and status. Its type is `unverified-user` whenever the status is `unverified`, and otherwise is the stored type. The picture is the default image URL when no file is stored, and otherwise the backend URL plus `/profile-pic/` plus the file name. |
| Profile.PictureRoundTrip | routes/users.js:357-361 | The stored file name can be read back from the view's picture URL. |
| Profile.DefaultIsNoPicture | routes/users.js:357-358 | The default image URL never reads back as a stored picture. |
| Profile.ViewShowsPictureExactlyWhenStored | routes/users.js:357-361 | The view's URL names a stored picture exactly when the user has one. |

## Left out

- Mongoose and MongoDB mechanics are not modelled: queries, `populate`, `ObjectId`,
  and the atomicity of `findByIdAndUpdate`. Each database call is one
  `DbOutcome` input, and the model is sequential. The review handler's
  check-then-act race between concurrent requests is outside the model.
- The population of the feed's individual entries (sender username, deal with
  its exchange trade type) is left out. Those entries keep the raw
  notification. Summaries do hold the joined deal.
- The order of `$group` output is unspecified by MongoDB. The model uses the
  order of first appearance. Only the final sorted feed is promised.
- Feed.SortByRecency: the tie order for equal timestamps is not stated. The
  source's `Array.prototype.sort` was not stable on older V8 engines.
- Deals.GetUserRole: `getUserRole` reads `seller._id` while `userHasAccess` reads
  `seller` itself. With ids as opaque strings both read the same id. Behaviour on
  populated documents is not modelled.
- Deals.Save: a save of a document that is not new writes the document under its
  id whether or not it was stored before. How a Mongoose version treats an
  update that matches no document is not modelled. An insert whose `_id` is
  already stored fails as a duplicate key, after the counter has moved.
- Deals.GetUserRole: `seller` and `buyer` are not required by the schema, and
  `userHasAccess` and `getUserRole` throw when a party is missing. The model
  always has both parties present as ids, so that throw is not modelled.
- Deals.SavePreservesValid: the schema makes `dId` a plain Number, neither
  immutable nor unique, so nothing in the code stops a later save from
  rewriting it. Distinct `dId`s hold only while no caller does that.
- Counters.Allocate: `seq` is a JavaScript number stored as a BSON number, so
  values past 2^53 lose precision. The model's counter is an unbounded integer
  and does not model that limit, which no realistic number of deals reaches.
- The deal's `messages`, `status` and `created_at` are carried but never changed;
  the endpoints that mutate a deal are not part of this model.
- `/info` wallet balances (web3 calls, division by a power of ten) and the wallet
  address are left out, as are the `holds` field and the user lookup that may
  answer 401.
- Authentication (JWT, passport), password hashing, file upload and removal,
  mail sending, the verify and reset routes, the registration and login handlers,
  and validators that query the database are left out. They are I/O or foreign
  library calls.
- `GET /user/:id` is left out. It refers to an undefined `doc` and is not part
  of this model.
