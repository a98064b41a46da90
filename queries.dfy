/** The read handlers as queries over the collections: filter, sort,
    limit and count. None of them changes the store. */
module Queries {
  import opened Common
  import opened Models
  import opened Collections
  import opened Ledger

  /** `to_list(100)`: list endpoints return at most this many documents. */
  const ListLimit: nat := 100

  /** `.limit(10)` on the leaderboard. */
  const LeaderboardSize: nat := 10

  function ReviewCreatedAt(r: Review): int { r.createdAt }

  /** A review shown on an attraction's public page. */
  function PublicIn(attractionId: Id): Review -> bool
  {
    (x: Review) => x.attractionId == attractionId && x.status == ReviewStatus.Approved
  }

  /** `get_reviews`: the approved reviews of one attraction, newest first,
      at most `ListLimit` of them. */
  function PublicReviews(reviews: seq<Review>, attractionId: Id): (r: seq<Review>)
    ensures |r| <= ListLimit && |r| <= |reviews|
  {
    TopByKey(Filter(reviews, PublicIn(attractionId)), ReviewCreatedAt, ListLimit)
  }

  /** Only approved reviews of that attraction are listed. */
  lemma PublicReviewsApprovedOnly(reviews: seq<Review>, attractionId: Id)
    ensures forall x :: x in PublicReviews(reviews, attractionId) ==>
              x in reviews && x.attractionId == attractionId && x.status == ReviewStatus.Approved
  {
    var r := PublicReviews(reviews, attractionId);
    forall x | x in r
      ensures x in reviews && x.attractionId == attractionId && x.status == ReviewStatus.Approved
    {
      assert x in multiset(r);
      assert x in Filter(reviews, PublicIn(attractionId));
    }
  }

  /** The list is ordered by `created_at`, newest first. */
  lemma PublicReviewsNewestFirst(reviews: seq<Review>, attractionId: Id)
    ensures var r := PublicReviews(reviews, attractionId);
            forall i, j :: 0 <= i < j < |r| ==> r[i].createdAt >= r[j].createdAt
  {
    var r := PublicReviews(reviews, attractionId);
    assert SortedDesc(r, ReviewCreatedAt);
  }

  /** One entry per approved review of the attraction, up to the limit. */
  lemma PublicReviewsCount(reviews: seq<Review>, attractionId: Id)
    ensures |PublicReviews(reviews, attractionId)|
            == Min(ListLimit, |set i: nat | i < |reviews| && reviews[i].attractionId == attractionId
                                          && reviews[i].status == ReviewStatus.Approved|)
  {
    FilterCountsMatches(reviews, PublicIn(attractionId));
    assert MatchingPositions(reviews, PublicIn(attractionId))
        == set i: nat | i < |reviews| && reviews[i].attractionId == attractionId
                                      && reviews[i].status == ReviewStatus.Approved;
  }

  /** An approved review of the attraction is left out only when the list is
      full, and then it is no newer than anything listed. */
  lemma PublicReviewsOmitOnlyOlder(reviews: seq<Review>, attractionId: Id, x: Review)
    requires x in reviews && x.attractionId == attractionId && x.status == ReviewStatus.Approved
    requires x !in PublicReviews(reviews, attractionId)
    ensures var r := PublicReviews(reviews, attractionId);
            |r| == ListLimit && forall i :: 0 <= i < |r| ==> x.createdAt <= r[i].createdAt
  {
    var matching := Filter(reviews, PublicIn(attractionId));
    var r := PublicReviews(reviews, attractionId);
    assert x in matching;
    TopByKeyExcluded(matching, ReviewCreatedAt, ListLimit, x);
  }

  /** `get_all_reviews`: admin only; every review, newest first. */
  function AllReviews(caller: Caller, reviews: seq<Review>): (r: Result<seq<Review>>)
    ensures caller.role != Admin <==> r == Err(Forbidden)
    ensures r.Ok? ==> |r.value| == Min(ListLimit, |reviews|)
    ensures r.Ok? ==> multiset(r.value) <= multiset(reviews)
    ensures r.Ok? ==> forall i, j :: 0 <= i < j < |r.value| ==> r.value[i].createdAt >= r.value[j].createdAt
    ensures r.Ok? && |reviews| <= ListLimit ==> multiset(r.value) == multiset(reviews)
  {
    if caller.role != Admin then Err(Forbidden)
    else Ok(TopByKey(reviews, ReviewCreatedAt, ListLimit))
  }

  /** The orders a caller may see: pending ones for a driver, their own
      for anyone else. */
  function VisibleTo(caller: Caller): TaxiOrder -> bool
  {
    if caller.role == TaxiDriver then (o: TaxiOrder) => o.status == OrderStatus.Pending
    else (o: TaxiOrder) => o.userId == caller.userId
  }

  /** `get_taxi_orders`: the first `ListLimit` visible orders in natural order. */
  function VisibleOrders(caller: Caller, orders: seq<TaxiOrder>): (r: seq<TaxiOrder>)
    ensures |r| <= ListLimit && |r| <= |orders|
  {
    Take(Filter(orders, VisibleTo(caller)), ListLimit)
  }

  /** A driver sees only pending orders; anyone else only their own. */
  lemma VisibleOrdersSound(caller: Caller, orders: seq<TaxiOrder>)
    ensures |VisibleOrders(caller, orders)| <= ListLimit
    ensures caller.role == TaxiDriver ==>
              forall x :: x in VisibleOrders(caller, orders) ==> x in orders && x.status == OrderStatus.Pending
    ensures caller.role != TaxiDriver ==>
              forall x :: x in VisibleOrders(caller, orders) ==> x in orders && x.userId == caller.userId
  {
    var matching := Filter(orders, VisibleTo(caller));
    var r := VisibleOrders(caller, orders);
    assert forall x :: x in r ==> x in matching by {
      forall x | x in r ensures x in matching {
        var k :| 0 <= k < |r| && r[k] == x;
        assert matching[k] == x;
      }
    }
  }

  /** Short of the limit, every visible order is listed. */
  lemma VisibleOrdersComplete(caller: Caller, orders: seq<TaxiOrder>, x: TaxiOrder)
    requires x in orders
    requires if caller.role == TaxiDriver then x.status == OrderStatus.Pending else x.userId == caller.userId
    requires |VisibleOrders(caller, orders)| < ListLimit
    ensures x in VisibleOrders(caller, orders)
  {
    assert x in Filter(orders, VisibleTo(caller));
  }

  /** One listed order per visible position, up to the limit. */
  lemma VisibleOrdersCount(caller: Caller, orders: seq<TaxiOrder>)
    ensures caller.role == TaxiDriver ==>
              |VisibleOrders(caller, orders)|
              == Min(ListLimit, |set i: nat | i < |orders| && orders[i].status == OrderStatus.Pending|)
    ensures caller.role != TaxiDriver ==>
              |VisibleOrders(caller, orders)|
              == Min(ListLimit, |set i: nat | i < |orders| && orders[i].userId == caller.userId|)
  {
    FilterCountsMatches(orders, VisibleTo(caller));
    if caller.role == TaxiDriver {
      assert MatchingPositions(orders, VisibleTo(caller))
          == set i: nat | i < |orders| && orders[i].status == OrderStatus.Pending;
    } else {
      assert MatchingPositions(orders, VisibleTo(caller))
          == set i: nat | i < |orders| && orders[i].userId == caller.userId;
    }
  }

  /** One leaderboard row: `{"name": ..., "ecocoin_balance": ...}`. */
  datatype LeaderboardEntry = LeaderboardEntry(name: string, ecocoinBalance: int)

  function EntryOf(d: UserDoc): LeaderboardEntry
  {
    LeaderboardEntry(d.user.name, d.user.ecocoinBalance)
  }

  function Balance(d: UserDoc): int { d.user.ecocoinBalance }

  predicate IsTourist(d: UserDoc) { d.user.role == Tourist }

  /** `get_leaderboard`: the ten richest tourists, richest first. */
  function Leaderboard(users: seq<UserDoc>): (r: seq<LeaderboardEntry>)
    ensures |r| <= LeaderboardSize && |r| <= |users|
  {
    var top := TopByKey(Filter(users, IsTourist), Balance, LeaderboardSize);
    seq(|top|, i requires 0 <= i < |top| => EntryOf(top[i]))
  }

  /** At most ten rows, one per tourist, in non-increasing balance order. */
  lemma LeaderboardShape(users: seq<UserDoc>)
    ensures var r := Leaderboard(users);
            && |r| == Min(LeaderboardSize, |set i: nat | i < |users| && users[i].user.role == Tourist|)
            && forall i, j :: 0 <= i < j < |r| ==> r[i].ecocoinBalance >= r[j].ecocoinBalance
  {
    var tourists := Filter(users, IsTourist);
    var top := TopByKey(tourists, Balance, LeaderboardSize);
    FilterCountsMatches(users, IsTourist);
    assert MatchingPositions(users, IsTourist) == set i: nat | i < |users| && users[i].user.role == Tourist;
    assert SortedDesc(top, Balance);
  }

  /** Every row is a tourist's name and balance. */
  lemma LeaderboardTouristsOnly(users: seq<UserDoc>)
    ensures var r := Leaderboard(users);
            forall i :: 0 <= i < |r| ==> exists d :: d in users && d.user.role == Tourist && r[i] == EntryOf(d)
  {
    var tourists := Filter(users, IsTourist);
    var top := TopByKey(tourists, Balance, LeaderboardSize);
    var r := Leaderboard(users);
    forall i | 0 <= i < |r| ensures exists d :: d in users && d.user.role == Tourist && r[i] == EntryOf(d) {
      assert top[i] in multiset(top);
      assert top[i] in tourists;
      assert r[i] == EntryOf(top[i]);
    }
  }

  /** A tourist is left off only when the board is full, and then holds no
      more coins than anyone shown. */
  lemma LeaderboardOmitsOnlyPoorer(users: seq<UserDoc>, d: UserDoc)
    requires d in users && d.user.role == Tourist
    requires EntryOf(d) !in Leaderboard(users)
    ensures var r := Leaderboard(users);
            |r| == LeaderboardSize && forall i :: 0 <= i < |r| ==> d.user.ecocoinBalance <= r[i].ecocoinBalance
  {
    var tourists := Filter(users, IsTourist);
    var top := TopByKey(tourists, Balance, LeaderboardSize);
    var r := Leaderboard(users);
    assert d in tourists;
    forall k | 0 <= k < |top| ensures top[k] != d {
      assert r[k] == EntryOf(top[k]);
    }
    TopByKeyExcluded(tourists, Balance, LeaderboardSize, d);
    forall i | 0 <= i < |r| ensures d.user.ecocoinBalance <= r[i].ecocoinBalance {
      assert r[i] == EntryOf(top[i]);
    }
  }

  /** The counters `get_admin_stats` reports. */
  datatype AdminStats = AdminStats(totalUsers: nat, totalOrders: nat, totalTasksCompleted: nat, pendingReviews: nat)

  predicate IsApprovedSubmission(s: TaskSubmission) { s.status == SubmissionStatus.Approved }

  predicate IsPendingReview(r: Review) { r.status == ReviewStatus.Pending }

  /** `get_admin_stats`: admin only; counts over the whole store. */
  function Stats(caller: Caller, users: seq<UserDoc>, orders: seq<TaxiOrder>,
                 submissions: seq<TaskSubmission>, reviews: seq<Review>): (r: Result<AdminStats>)
    ensures r.Err? <==> caller.role != Admin
    ensures r.Err? ==> r.error == Forbidden
    ensures r.Ok? ==> r.value.totalTasksCompleted <= |submissions| && r.value.pendingReviews <= |reviews|
  {
    if caller.role != Admin then Err(Forbidden)
    else Ok(AdminStats(|users|, |orders|, |Filter(submissions, IsApprovedSubmission)|,
                       |Filter(reviews, IsPendingReview)|))
  }

  /** Non-admins are refused; admins get the number of users, of orders in
      any status, of approved submissions and of pending reviews. */
  lemma StatsCounts(caller: Caller, users: seq<UserDoc>, orders: seq<TaxiOrder>,
                    submissions: seq<TaskSubmission>, reviews: seq<Review>)
    ensures var r := Stats(caller, users, orders, submissions, reviews);
            && (caller.role != Admin <==> r == Err(Forbidden))
            && (r.Ok? ==> r.value.totalUsers == |users| && r.value.totalOrders == |orders|)
            && (r.Ok? ==> r.value.totalTasksCompleted
                          == |set i: nat | i < |submissions| && submissions[i].status == SubmissionStatus.Approved|)
            && (r.Ok? ==> r.value.pendingReviews
                          == |set i: nat | i < |reviews| && reviews[i].status == ReviewStatus.Pending|)
  {
    FilterCountsMatches(submissions, IsApprovedSubmission);
    FilterCountsMatches(reviews, IsPendingReview);
    assert MatchingPositions(submissions, IsApprovedSubmission)
        == set i: nat | i < |submissions| && submissions[i].status == SubmissionStatus.Approved;
    assert MatchingPositions(reviews, IsPendingReview)
        == set i: nat | i < |reviews| && reviews[i].status == ReviewStatus.Pending;
  }

  /** `get_balance`: the caller's balance; a caller without a users
      document makes `user.get` fail on None. */
  function BalanceOf(caller: Caller, users: seq<UserDoc>): (r: Result<int>)
    ensures r.Err? <==> forall i :: 0 <= i < |users| ==> users[i].user.id != caller.userId
    ensures r.Err? ==> r.error == InternalServerError
    ensures Distinct(users, UserId) ==>
              forall i :: 0 <= i < |users| && users[i].user.id == caller.userId ==>
                r == Ok(users[i].user.ecocoinBalance)
  {
    match FindUser(users, caller.userId)
    case None => Err(InternalServerError)
    case Some(d) => Ok(d.user.ecocoinBalance)
  }

  /** `login`: the user registered under the email, when the password
      matches its stored hash; the password check is a parameter. */
  function Login(users: seq<UserDoc>, credentials: UserLogin, verifyPassword: (string, string) -> bool)
    : (r: Result<User>)
    ensures r.Err? ==> r.error == Unauthorized
    ensures (forall i :: 0 <= i < |users| ==> users[i].user.email != credentials.email) ==> r.Err?
    ensures Distinct(users, UserEmail) ==>
              forall i :: 0 <= i < |users| && users[i].user.email == credentials.email ==>
                r == if verifyPassword(credentials.password, users[i].passwordHash)
                     then Ok(users[i].user) else Err(Unauthorized)
  {
    var m := (d: UserDoc) => d.user.email == credentials.email;
    match FindIndex(users, m)
    case None => Err(Unauthorized)
    case Some(k) =>
      assert Distinct(users, UserEmail) ==>
          forall i :: 0 <= i < |users| && users[i].user.email == credentials.email ==> i == k by {
        if Distinct(users, UserEmail) {
          forall i | 0 <= i < |users| && users[i].user.email == credentials.email ensures i == k {
          }
        }
      }
      var d := users[k];
      if verifyPassword(credentials.password, d.passwordHash) then Ok(d.user) else Err(Unauthorized)
  }
}
