/** The `POST /user/:id/addReview` handler of routes/users.js: request
    validation, the one-review-per-deal rule, and the append of one review. */
module Reviews {
  import opened Common
  import Deals

  type Deal = Deals.Deal

  /** A stored review: `user` is the reviewed user, `author` the one who wrote it. */
  datatype Review = Review(id: Id, user: Id, author: Id, comment: string, rating: string, deal: Id)

  /** What the handler reads from the request: the `:id` route parameter, the
      authenticated caller, and the body fields (a missing field reads as ""). */
  datatype ReviewRequest = ReviewRequest(subject: Id, caller: Id, comment: string, rating: string, dealId: Id)

  /** What the three database calls of the handler report: the duplicate lookup,
      the participant lookup and the final insert. */
  datatype ReviewDb = ReviewDb(findReview: DbOutcome, findDeals: DbOutcome, save: DbOutcome)

  /** The body fields the validator checks. */
  datatype Field = CommentField | RatingField

  /** The two kinds of response an unsuccessful request gets: 400 with the
      fields that failed validation, or 500 with a message. */
  datatype ReviewError = BadRequest(fields: set<Field>) | ServerError(msg: string)

  const OneReviewPerDeal: string := "You can leave only one review for one deal"

  /** The message of a 500 caused by an error that carries no `msg` of its own. */
  const DbErrorMsg: string := "DB Error"

  /** The accepted `rating` values, compared as strings. */
  const Ratings: seq<string> := ["1", "2", "3", "4", "5"]

  /** The fields of the request that fail `notEmpty` (comment) or
      `notEmpty`/`isIn` (rating). */
  function InvalidFields(req: ReviewRequest): (f: set<Field>)
    ensures CommentField in f <==> req.comment == ""
    ensures RatingField in f <==> req.rating !in Ratings
  {
    (if req.comment == "" then {CommentField} else {})
      + (if req.rating in Ratings then {} else {RatingField})
  }

  /** `Review.findOne({author, deal})` finds something. */
  predicate HasReview(reviews: seq<Review>, author: Id, deal: Id)
    ensures HasReview(reviews, author, deal) <==>
      exists rv :: rv in reviews && rv.author == author && rv.deal == deal
  {
    exists i :: 0 <= i < |reviews| && reviews[i].author == author && reviews[i].deal == deal
  }

  /** The deals `Deal.find` selects: `deal` itself when the caller is its
      seller or buyer, nothing otherwise. */
  function ParticipantDeals(deals: map<Id, Deal>, caller: Id, deal: Id): (r: seq<Deals.Deal>)
    ensures |r| <= 1
    ensures |r| == 1 <==> deal in deals && Deals.UserHasAccess(deals[deal], caller)
    ensures |r| == 1 ==> r[0] == deals[deal]
  {
    if deal in deals && Deals.UserHasAccess(deals[deal], caller) then [deals[deal]] else []
  }

  /** The review the handler builds from a request: it is about the user of
      the route, written by the caller, for the deal named in the body. */
  function ReviewOf(req: ReviewRequest, newId: Id): (r: Review)
    ensures r.id == newId && r.user == req.subject && r.author == req.caller && r.deal == req.dealId
    ensures r.comment == req.comment && r.rating == req.rating
  {
    Review(newId, req.subject, req.caller, req.comment, req.rating, req.dealId)
  }

  /** The handler, as a function from the stored reviews and deals to either
      the new review list or the error response. The participant lookup runs
      after the duplicate check, but the deals it finds are discarded: only a
      failure of the lookup itself changes the outcome. */
  function AddReview(reviews: seq<Review>, deals: map<Id, Deal>, req: ReviewRequest, newId: Id, db: ReviewDb)
    : (r: Result<seq<Review>, ReviewError>)
    // invalid input is answered with 400 naming exactly the failing fields
    ensures InvalidFields(req) != {} <==> r.Err? && r.error.BadRequest?
    ensures r.Err? && r.error.BadRequest? ==> r.error.fields == InvalidFields(req)
    // a second review by the same author for the same deal is refused
    ensures InvalidFields(req) == {} && db.findReview.DbOk? && HasReview(reviews, req.caller, req.dealId) ==>
      r == Err(ServerError(OneReviewPerDeal))
    // success exactly when the input is valid, there is no earlier review by
    // this author for this deal, and the database answers every call
    ensures r.Ok? <==>
      && InvalidFields(req) == {}
      && !HasReview(reviews, req.caller, req.dealId)
      && db.findReview.DbOk? && db.findDeals.DbOk? && db.save.DbOk?
    // success appends exactly one review built from the request
    ensures r.Ok? ==> r.value == reviews + [ReviewOf(req, newId)]
    // the duplicate message is given for a duplicate and for nothing else
    ensures r == Err(ServerError(OneReviewPerDeal)) <==>
      InvalidFields(req) == {} && db.findReview.DbOk? && HasReview(reviews, req.caller, req.dealId)
    // any other failure is a 500 with the generic message
    ensures r.Err? && r.error.ServerError? ==>
      r.error.msg == OneReviewPerDeal || r.error.msg == DbErrorMsg
  {
    var bad := InvalidFields(req);
    if bad != {} then Err(BadRequest(bad))
    else if db.findReview.DbError? then Err(ServerError(DbErrorMsg))
    else if HasReview(reviews, req.caller, req.dealId) then Err(ServerError(OneReviewPerDeal))
    else if db.findDeals.DbError? then Err(ServerError(DbErrorMsg))
    else if db.save.DbError? then Err(ServerError(DbErrorMsg))
    else Ok(reviews + [ReviewOf(req, newId)])
  }

  /** At most one review per (author, deal) pair. */
  ghost predicate OnePerAuthorAndDeal(reviews: seq<Review>) {
    forall i, j :: 0 <= i < j < |reviews| ==>
      !(reviews[i].author == reviews[j].author && reviews[i].deal == reviews[j].deal)
  }

  /** Applied one request at a time, the handler keeps at most one review per
      (author, deal) pair. */
  lemma AddReviewKeepsOnePerPair(reviews: seq<Review>, deals: map<Id, Deal>, req: ReviewRequest, newId: Id, db: ReviewDb)
    requires OnePerAuthorAndDeal(reviews)
    ensures var r := AddReview(reviews, deals, req, newId, db);
      r.Ok? ==> OnePerAuthorAndDeal(r.value)
  {
    var r := AddReview(reviews, deals, req, newId, db);
    if r.Ok? {
      var rs := r.value;
      forall i, j | 0 <= i < j < |rs|
        ensures !(rs[i].author == rs[j].author && rs[i].deal == rs[j].deal)
      {
        if j == |reviews| {
          assert rs[i] == reviews[i] && rs[j] == ReviewOf(req, newId);
          assert !(reviews[i].author == req.caller && reviews[i].deal == req.dealId);
        }
      }
    }
  }

  /** Repeating a request after it succeeded is refused as a duplicate whenever
      the duplicate lookup answers. */
  lemma RepeatedReviewFails(reviews: seq<Review>, deals: map<Id, Deal>, req: ReviewRequest,
                            id1: Id, id2: Id, db1: ReviewDb, db2: ReviewDb)
    requires AddReview(reviews, deals, req, id1, db1).Ok?
    requires db2.findReview.DbOk?
    ensures AddReview(AddReview(reviews, deals, req, id1, db1).value, deals, req, id2, db2)
      == Err(ServerError(OneReviewPerDeal))
  {
    var rs := AddReview(reviews, deals, req, id1, db1).value;
    assert rs[|reviews|] == ReviewOf(req, id1);
  }

  /** The participant lookup does not gate anything: a caller who is neither
      seller nor buyer of the deal, or a deal that does not exist, gets the
      same answer as a participant would. */
  lemma ParticipationIsNotChecked(reviews: seq<Review>, deals1: map<Id, Deal>, deals2: map<Id, Deal>,
                                  req: ReviewRequest, newId: Id, db: ReviewDb)
    ensures AddReview(reviews, deals1, req, newId, db) == AddReview(reviews, deals2, req, newId, db)
  {
  }

  /** Concretely: an outsider's valid first review of a deal is stored. */
  lemma OutsiderReviewIsStored(reviews: seq<Review>, deals: map<Id, Deal>, req: ReviewRequest, newId: Id)
    requires req.dealId in deals && !Deals.UserHasAccess(deals[req.dealId], req.caller)
    requires InvalidFields(req) == {} && !HasReview(reviews, req.caller, req.dealId)
    ensures AddReview(reviews, deals, req, newId, ReviewDb(DbOk, DbOk, DbOk)) == Ok(reviews + [ReviewOf(req, newId)])
  {
  }
}
