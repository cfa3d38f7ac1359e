/** The `GET /notifications` handler of routes/users.js: the user's `message`
    notifications grouped per deal and joined with the deal, the user's other
    notifications one by one, and the two merged newest first. */
module Feed {
  import opened Common
  import Deals

  /** The notification type that is grouped instead of listed. */
  const MessageKind: string := "message"

  /** A notification addressed to `user`; `createdAt` is a timestamp in
      milliseconds. */
  datatype Notification = Notification(
    id: Id, kind: string, user: Id, sender: Option<Id>, deal: Id, createdAt: int)

  /** One entry of the feed: a notification shown on its own, or the summary
      of the messages about one deal. `group` is the deal id the messages were
      grouped by; `deal` is the deal document the join found for it. */
  datatype FeedItem =
    | Single(n: Notification)
    | Summary(group: Id, deal: Deals.Deal, notifications: nat, createdAt: int)

  /** The timestamp the feed is ordered by. */
  function At(x: FeedItem): int {
    match x
    case Single(n) => n.createdAt
    case Summary(_, _, _, t) => t
  }

  /** The `$match`/`find` condition: addressed to `user`, and of type
      `message` exactly when `messages` is set. */
  predicate Selected(n: Notification, user: Id, messages: bool) {
    n.user == user && (n.kind == MessageKind) == messages
  }

  /** The notifications of `ns` that satisfy `Selected`, in their order. */
  function Select(ns: seq<Notification>, user: Id, messages: bool): (r: seq<Notification>)
    ensures forall k :: 0 <= k < |r| ==> Selected(r[k], user, messages)
    ensures forall n :: multiset(r)[n] == if Selected(n, user, messages) then multiset(ns)[n] else 0
  {
    if |ns| == 0 then []
    else
      assert ns == [ns[0]] + ns[1..];
      var rest := Select(ns[1..], user, messages);
      if Selected(ns[0], user, messages) then [ns[0]] + rest else rest
  }

  /** Each notification of `s`, as an entry of its own. */
  function Singles(s: seq<Notification>): (r: seq<FeedItem>)
    ensures |r| == |s|
    ensures forall k :: 0 <= k < |s| ==> r[k] == Single(s[k])
  {
    if |s| == 0 then [] else [Single(s[0])] + Singles(s[1..])
  }

  lemma {:induction false} SinglesCount(s: seq<Notification>, n: Notification)
    ensures multiset(Singles(s))[Single(n)] == multiset(s)[n]
  {
    if |s| > 0 {
      assert s == [s[0]] + s[1..];
      assert Singles(s) == [Single(s[0])] + Singles(s[1..]);
      SinglesCount(s[1..], n);
    }
  }

  /** Number of notifications in `ms` about `deal`: the `$sum: 1` of a group. */
  function Count(ms: seq<Notification>, deal: Id): (c: nat)
    ensures c <= |ms|
    ensures c == |ms| <==> forall k :: 0 <= k < |ms| ==> ms[k].deal == deal
  {
    if |ms| == 0 then 0 else (if ms[0].deal == deal then 1 else 0) + Count(ms[1..], deal)
  }

  /** The `$sum: 1` of a group is the number of times its deal occurs among
      the deals the messages are about. */
  lemma {:induction false} CountIsMultiplicity(ms: seq<Notification>, deal: Id)
    ensures Count(ms, deal) == multiset(DealIds(ms))[deal]
  {
    if |ms| > 0 {
      assert DealIds(ms) == [ms[0].deal] + DealIds(ms[1..]);
      CountIsMultiplicity(ms[1..], deal);
    }
  }

  /** The deal each notification of `ms` is about, in order: the `$deal`
      the `$group` stage keys on. */
  function DealIds(ms: seq<Notification>): (r: seq<Id>)
    ensures |r| == |ms|
    ensures forall k :: 0 <= k < |ms| ==> r[k] == ms[k].deal
  {
    seq(|ms|, k requires 0 <= k < |ms| => ms[k].deal)
  }

  /** The latest timestamp among the notifications of `ms` about `deal`: the
      `$max` of a group. */
  function LastAt(ms: seq<Notification>, deal: Id): (r: Option<int>)
    ensures r.Some? <==> Count(ms, deal) > 0
    ensures r.Some? ==> exists k :: 0 <= k < |ms| && ms[k].deal == deal && ms[k].createdAt == r.value
    ensures r.Some? ==> forall k :: 0 <= k < |ms| && ms[k].deal == deal ==> ms[k].createdAt <= r.value
  {
    if |ms| == 0 then None
    else
      var rest := LastAt(ms[1..], deal);
      assert forall k :: 1 <= k < |ms| ==> ms[k] == ms[1..][k - 1];
      CountPositive(ms[1..], deal);
      if ms[0].deal != deal then rest
      else match rest
        case None => Some(ms[0].createdAt)
        case Some(t) => Some(if ms[0].createdAt >= t then ms[0].createdAt else t)
  }

  lemma {:induction false} CountPositive(ms: seq<Notification>, deal: Id)
    ensures Count(ms, deal) > 0 <==> exists k :: 0 <= k < |ms| && ms[k].deal == deal
  {
    if |ms| > 0 {
      CountPositive(ms[1..], deal);
      assert forall k :: 1 <= k < |ms| ==> ms[k] == ms[1..][k - 1];
      if Count(ms[1..], deal) > 0 {
        var k :| 0 <= k < |ms[1..]| && ms[1..][k].deal == deal;
        assert ms[k + 1].deal == deal;
      }
    }
  }

  /** The distinct elements of `ids`, each at its first occurrence. */
  function Distinct(ids: seq<Id>): (r: seq<Id>)
    ensures forall x :: x in r <==> x in ids
    ensures forall i, j :: 0 <= i < j < |r| ==> r[i] != r[j]
  {
    if |ids| == 0 then []
    else
      var r := Distinct(ids[..|ids| - 1]);
      var last := ids[|ids| - 1];
      assert ids == ids[..|ids| - 1] + [last];
      if last in r then r else r + [last]
  }

  /** The `_id`s of the `$group` stage: the distinct deals the messages are
      about. The stage promises no order; first appearance is used here. */
  function Groups(ms: seq<Notification>): (r: seq<Id>)
    ensures forall g :: g in r <==> exists k :: 0 <= k < |ms| && ms[k].deal == g
    ensures forall i, j :: 0 <= i < j < |r| ==> r[i] != r[j]
  {
    Distinct(DealIds(ms))
  }

  /** `x` is the summary the pipeline produces for its group: the group's
      deal exists and was joined in, and the count and timestamp are the
      group's `$sum` and `$max` over `ms`. */
  predicate SummaryOf(x: FeedItem, ms: seq<Notification>, deals: map<Id, Deals.Deal>) {
    && x.Summary? && x.group in deals
    && x.deal == deals[x.group]
    && x.notifications == Count(ms, x.group)
    && LastAt(ms, x.group) == Some(x.createdAt)
  }

  /** Some entry of `r` is a summary for group `g`. */
  predicate HasSummaryFor(r: seq<FeedItem>, g: Id) {
    exists k :: 0 <= k < |r| && r[k].Summary? && r[k].group == g
  }

  /** The `$lookup` + `$unwind` + `$project` stages over the groups `keys`:
      one summary per group whose deal exists, none for the others. */
  function SummariesOf(keys: seq<Id>, ms: seq<Notification>, deals: map<Id, Deals.Deal>): (r: seq<FeedItem>)
    requires forall g :: g in keys ==> Count(ms, g) > 0
    ensures forall k :: 0 <= k < |r| ==> SummaryOf(r[k], ms, deals) && r[k].group in keys
  {
    if |keys| == 0 then []
    else
      var g := keys[0];
      var rest := SummariesOf(keys[1..], ms, deals);
      if g in deals then [Summary(g, deals[g], Count(ms, g), LastAt(ms, g).value)] + rest
      else rest
  }

  /** Every group whose deal exists is summarised. */
  lemma {:induction false} SummariesOfCovers(keys: seq<Id>, ms: seq<Notification>, deals: map<Id, Deals.Deal>, g: Id)
    requires forall h :: h in keys ==> Count(ms, h) > 0
    requires g in keys && g in deals
    ensures HasSummaryFor(SummariesOf(keys, ms, deals), g)
  {
    var r := SummariesOf(keys, ms, deals);
    if keys[0] == g {
      assert r[0].group == g;
    } else {
      var rest := SummariesOf(keys[1..], ms, deals);
      SummariesOfCovers(keys[1..], ms, deals, g);
      var k :| 0 <= k < |rest| && rest[k].Summary? && rest[k].group == g;
      if keys[0] in deals {
        assert r[k + 1] == rest[k];
      } else {
        assert r[k] == rest[k];
      }
    }
  }

  /** Distinct groups give distinct summaries: no deal is summarised twice. */
  lemma {:induction false} SummariesOfDistinct(keys: seq<Id>, ms: seq<Notification>, deals: map<Id, Deals.Deal>)
    requires forall g :: g in keys ==> Count(ms, g) > 0
    requires forall i, j :: 0 <= i < j < |keys| ==> keys[i] != keys[j]
    ensures forall i, j :: 0 <= i < j < |SummariesOf(keys, ms, deals)| ==>
      SummariesOf(keys, ms, deals)[i].group != SummariesOf(keys, ms, deals)[j].group
  {
    if |keys| > 0 {
      var rest := SummariesOf(keys[1..], ms, deals);
      SummariesOfDistinct(keys[1..], ms, deals);
      assert forall i, j :: 0 <= i < j < |rest| ==> rest[i].group != rest[j].group;
      assert keys[0] !in keys[1..];
      var r := SummariesOf(keys, ms, deals);
      if keys[0] in deals {
        assert forall k :: 0 <= k < |rest| ==> rest[k].Summary? && rest[k].group in keys[1..];
        PrependNewGroup(r[0], rest, keys[1..]);
        assert r == [r[0]] + rest;
      } else {
        assert r == rest;
      }
    }
  }

  /** A summary for a group none of `rest` covers keeps the groups distinct. */
  lemma PrependNewGroup(x: FeedItem, rest: seq<FeedItem>, keys: seq<Id>)
    requires x.Summary? && x.group !in keys
    requires forall k :: 0 <= k < |rest| ==> rest[k].Summary? && rest[k].group in keys
    requires forall i, j :: 0 <= i < j < |rest| ==> rest[i].group != rest[j].group
    ensures forall i, j :: 0 <= i < j < |[x] + rest| ==> ([x] + rest)[i].group != ([x] + rest)[j].group
  {
    var r := [x] + rest;
    forall i, j | 0 <= i < j < |r| ensures r[i].group != r[j].group {
      assert r[j] == rest[j - 1];
      if i > 0 {
        assert r[i] == rest[i - 1];
      }
    }
  }

  /** The aggregation pipeline for `user`: summaries of their `message`
      notifications, one per deal that still resolves. */
  function Summaries(ns: seq<Notification>, deals: map<Id, Deals.Deal>, user: Id): (r: seq<FeedItem>)
    ensures forall k :: 0 <= k < |r| ==> SummaryOf(r[k], Select(ns, user, true), deals)
  {
    var ms := Select(ns, user, true);
    GroupsHaveMessages(ms);
    SummariesOf(Groups(ms), ms, deals)
  }

  lemma GroupsHaveMessages(ms: seq<Notification>)
    ensures forall g :: g in Groups(ms) ==> Count(ms, g) > 0
  {
    forall g | g in Groups(ms) ensures Count(ms, g) > 0 {
      CountPositive(ms, g);
    }
  }

  // ---------------------------------------------------------------- ordering

  /** Newest first: no entry is newer than one before it. */
  predicate Recent(s: seq<FeedItem>) {
    forall i, j :: 0 <= i < j < |s| ==> At(s[i]) >= At(s[j])
  }

  /** A bound on the timestamps of `b` bounds every permutation of `b`. */
  lemma BoundCarriesOver(a: seq<FeedItem>, b: seq<FeedItem>, bound: int)
    requires multiset(a) == multiset(b)
    requires forall k :: 0 <= k < |b| ==> At(b[k]) <= bound
    ensures forall k :: 0 <= k < |a| ==> At(a[k]) <= bound
  {
    forall k | 0 <= k < |a| ensures At(a[k]) <= bound {
      assert a[k] in multiset(b);
      var i :| 0 <= i < |b| && b[i] == a[k];
    }
  }

  /** Insert `x` into a newest-first sequence, ahead of the entries that are
      not newer than it. */
  function Insert(x: FeedItem, s: seq<FeedItem>): (r: seq<FeedItem>)
    requires Recent(s)
    ensures Recent(r)
    ensures multiset(r) == multiset(s) + multiset{x}
    ensures |r| == |s| + 1
  {
    if |s| == 0 || At(s[0]) <= At(x) then [x] + s
    else
      var rest := Insert(x, s[1..]);
      assert s == [s[0]] + s[1..];
      BoundCarriesOver(rest, s[1..] + [x], At(s[0]));
      [s[0]] + rest
  }

  /** The `sort` by `created_at`, newest first. */
  function SortByRecency(s: seq<FeedItem>): (r: seq<FeedItem>)
    ensures Recent(r)
    ensures multiset(r) == multiset(s)
  {
    if |s| == 0 then []
    else
      assert s == [s[0]] + s[1..];
      Insert(s[0], SortByRecency(s[1..]))
  }

  /** The response of the handler: the user's other notifications, then the
      message summaries, sorted newest first. */
  function UserFeed(ns: seq<Notification>, deals: map<Id, Deals.Deal>, user: Id): (r: seq<FeedItem>)
    ensures Recent(r)
    ensures multiset(r) == multiset(Singles(Select(ns, user, false)) + Summaries(ns, deals, user))
  {
    SortByRecency(Singles(Select(ns, user, false)) + Summaries(ns, deals, user))
  }

  // ------------------------------------------------------------- properties

  /** Every notification of the user that is not a message appears in the feed
      on its own, as often as it is stored; nothing else appears on its own. */
  lemma FeedSinglesAreTheOthers(ns: seq<Notification>, deals: map<Id, Deals.Deal>, user: Id, n: Notification)
    ensures multiset(UserFeed(ns, deals, user))[Single(n)] ==
      if Selected(n, user, false) then multiset(ns)[n] else 0
  {
    var sums := Summaries(ns, deals, user);
    assert Single(n) !in sums;
    SinglesCount(Select(ns, user, false), n);
  }

  /** In particular no `message` notification is listed on its own, and every
      entry listed on its own is addressed to the user. */
  lemma FeedHasNoSingleMessage(ns: seq<Notification>, deals: map<Id, Deals.Deal>, user: Id)
    ensures forall x :: x in UserFeed(ns, deals, user) && x.Single? ==>
      x.n.kind != MessageKind && x.n.user == user
  {
    forall x | x in UserFeed(ns, deals, user) && x.Single?
      ensures x.n.kind != MessageKind && x.n.user == user
    {
      assert x in multiset(UserFeed(ns, deals, user));
      FeedSinglesAreTheOthers(ns, deals, user, x.n);
    }
  }

  /** Every summary in the feed is about a deal that exists, counts the user's
      messages about that deal and carries the latest of their timestamps. */
  lemma FeedSummariesCountMessages(ns: seq<Notification>, deals: map<Id, Deals.Deal>, user: Id)
    ensures forall x :: x in UserFeed(ns, deals, user) && x.Summary? ==>
      && SummaryOf(x, Select(ns, user, true), deals)
      && x.notifications > 0
      && (forall i :: 0 <= i < |Select(ns, user, true)| && Select(ns, user, true)[i].deal == x.group ==>
            Select(ns, user, true)[i].createdAt <= x.createdAt)
      && (exists i :: 0 <= i < |Select(ns, user, true)| && Select(ns, user, true)[i].deal == x.group &&
            Select(ns, user, true)[i].createdAt == x.createdAt)
  {
    var singles := Singles(Select(ns, user, false));
    var sums := Summaries(ns, deals, user);
    var feed := UserFeed(ns, deals, user);
    forall x | x in feed && x.Summary?
      ensures SummaryOf(x, Select(ns, user, true), deals)
    {
      SummaryComesFromSummaries(singles, sums, feed, x, Select(ns, user, true), deals);
    }
  }

  /** A summary in a permutation of singles followed by summaries is one of
      the summaries. */
  lemma SummaryComesFromSummaries(singles: seq<FeedItem>, sums: seq<FeedItem>, feed: seq<FeedItem>,
                                  x: FeedItem, ms: seq<Notification>, deals: map<Id, Deals.Deal>)
    requires multiset(feed) == multiset(singles + sums)
    requires forall k :: 0 <= k < |singles| ==> singles[k].Single?
    requires forall k :: 0 <= k < |sums| ==> SummaryOf(sums[k], ms, deals)
    requires x in feed && x.Summary?
    ensures SummaryOf(x, ms, deals)
  {
    assert x in multiset(feed);
    assert x in singles + sums;
  }

  /** A deal gets a summary in the feed exactly when it exists and the user
      has at least one `message` notification about it. */
  lemma FeedSummaryExactlyWhen(ns: seq<Notification>, deals: map<Id, Deals.Deal>, user: Id, g: Id)
    ensures HasSummaryFor(UserFeed(ns, deals, user), g)
      <==> g in deals && exists n :: n in ns && Selected(n, user, true) && n.deal == g
  {
    SummaryNeedsMessage(ns, deals, user, g);
    if g in deals && exists n :: n in ns && Selected(n, user, true) && n.deal == g {
      var n :| n in ns && Selected(n, user, true) && n.deal == g;
      MessageGetsSummary(ns, deals, user, n);
    }
  }

  lemma SummaryNeedsMessage(ns: seq<Notification>, deals: map<Id, Deals.Deal>, user: Id, g: Id)
    ensures HasSummaryFor(UserFeed(ns, deals, user), g) ==>
      g in deals && exists n :: n in ns && Selected(n, user, true) && n.deal == g
  {
    var feed := UserFeed(ns, deals, user);
    if HasSummaryFor(feed, g) {
      var ms := Select(ns, user, true);
      var k :| 0 <= k < |feed| && feed[k].Summary? && feed[k].group == g;
      FeedSummariesCountMessages(ns, deals, user);
      assert feed[k] in feed;
      var i :| 0 <= i < |ms| && ms[i].deal == g && ms[i].createdAt == feed[k].createdAt;
      assert multiset(ms)[ms[i]] > 0;
      assert ms[i] in ns;
    }
  }

  lemma MessageGetsSummary(ns: seq<Notification>, deals: map<Id, Deals.Deal>, user: Id, n: Notification)
    requires n in ns && Selected(n, user, true) && n.deal in deals
    ensures HasSummaryFor(UserFeed(ns, deals, user), n.deal)
  {
    var sums := Summaries(ns, deals, user);
    MessageGetsSummaryBeforeSort(ns, deals, user, n);
    var k :| 0 <= k < |sums| && sums[k].Summary? && sums[k].group == n.deal;
    SummaryReachesFeed(ns, deals, user, sums[k]);
    var feed := UserFeed(ns, deals, user);
    var j :| 0 <= j < |feed| && feed[j] == sums[k];
  }

  lemma MessageGetsSummaryBeforeSort(ns: seq<Notification>, deals: map<Id, Deals.Deal>, user: Id, n: Notification)
    requires n in ns && Selected(n, user, true) && n.deal in deals
    ensures HasSummaryFor(Summaries(ns, deals, user), n.deal)
  {
    var ms := Select(ns, user, true);
    assert multiset(ms)[n] > 0;
    var i :| 0 <= i < |ms| && ms[i] == n;
    assert n.deal in Groups(ms);
    GroupsHaveMessages(ms);
    SummariesOfCovers(Groups(ms), ms, deals, n.deal);
  }

  lemma SummaryReachesFeed(ns: seq<Notification>, deals: map<Id, Deals.Deal>, user: Id, x: FeedItem)
    requires x in Summaries(ns, deals, user)
    ensures x in UserFeed(ns, deals, user)
  {
    var singles := Singles(Select(ns, user, false));
    var sums := Summaries(ns, deals, user);
    assert x in multiset(singles + sums);
    assert x in multiset(UserFeed(ns, deals, user));
  }

  /** The summaries in the feed are about pairwise different deals. */
  lemma FeedSummariesDistinct(ns: seq<Notification>, deals: map<Id, Deals.Deal>, user: Id)
    ensures forall i, j :: 0 <= i < j < |Summaries(ns, deals, user)| ==>
      Summaries(ns, deals, user)[i].group != Summaries(ns, deals, user)[j].group
  {
    var ms := Select(ns, user, true);
    GroupsHaveMessages(ms);
    SummariesOfDistinct(Groups(ms), ms, deals);
    assert Summaries(ns, deals, user) == SummariesOf(Groups(ms), ms, deals);
  }

  /** Of two entries with different timestamps, the newer comes first. */
  lemma NewerComesFirst(ns: seq<Notification>, deals: map<Id, Deals.Deal>, user: Id)
    ensures forall i, j ::
      (0 <= i < |UserFeed(ns, deals, user)| && 0 <= j < |UserFeed(ns, deals, user)| &&
       At(UserFeed(ns, deals, user)[i]) > At(UserFeed(ns, deals, user)[j])) ==> i < j
  {
    RecentPutsNewerFirst(UserFeed(ns, deals, user));
  }

  /** In a sequence ordered newest first, a strictly newer entry has the
      smaller index. */
  lemma RecentPutsNewerFirst(s: seq<FeedItem>)
    requires Recent(s)
    ensures forall i, j :: 0 <= i < |s| && 0 <= j < |s| && At(s[i]) > At(s[j]) ==> i < j
  {
  }

  // -------------------------------------------------------------- responses

  /** What the handler sends: the feed, a 400 carrying the error of the
      `find`, or nothing at all when the aggregation fails (its promise has
      no rejection handler, so no response is ever written). */
  datatype FeedResponse = FeedOk(items: seq<FeedItem>) | FeedBadRequest(msg: string) | NoResponse

  /** The handler with the verdicts of its two database calls: the
      aggregation runs first, and the `find` only after it succeeded. */
  function Respond(ns: seq<Notification>, deals: map<Id, Deals.Deal>, user: Id,
                   aggregateDb: DbOutcome, findDb: DbOutcome): (r: FeedResponse)
    // a failure of either read never yields a partial feed
    ensures r.FeedOk? <==> aggregateDb.DbOk? && findDb.DbOk?
    ensures aggregateDb.DbError? ==> r == NoResponse
    ensures aggregateDb.DbOk? && findDb.DbError? ==> r == FeedBadRequest(findDb.msg)
    ensures r.FeedOk? ==> Recent(r.items)
    ensures r.FeedOk? ==>
      multiset(r.items) == multiset(Singles(Select(ns, user, false)) + Summaries(ns, deals, user))
  {
    match aggregateDb
    case DbError(_) => NoResponse
    case DbOk =>
      match findDb
      case DbError(msg) => FeedBadRequest(msg)
      case DbOk => FeedOk(UserFeed(ns, deals, user))
  }
}
