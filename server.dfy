/** The workflow ledger of the backend: one in-memory store holding the
    collections the request handlers read and write. Each write handler is a
    method that runs atomically; the read handlers are the functions of
    module Queries, applied to the store's collections. */
module Server {
  import opened Common
  import opened Models
  import opened Collections
  import opened Ledger
  import opened Verdict
  import opened Queries

  /** A `bookings` document as `book_hotel` builds it. */
  datatype Booking = Booking(
    id: Id,
    userId: Id,
    hotelId: Id,
    hotelName: string,
    checkIn: string,
    checkOut: string,
    guests: int,
    totalPrice: int,
    paymentStatus: string,
    createdAt: Timestamp)

  /** What the language model call of the task verifier produced: a reply,
      or an exception. */
  datatype LlmOutcome = Reply(text: string) | Raised

  const PaymentCompleted := "completed"

  function OrderId(o: TaxiOrder): Id { o.id }

  function ReviewId(r: Review): Id { r.id }

  function SubmissionId(s: TaskSubmission): Id { s.id }

  /** Some users document has this id. */
  predicate HasUser(users: seq<UserDoc>, userId: Id)
  {
    exists i :: 0 <= i < |users| && users[i].user.id == userId
  }

  /** Some users document has this email. */
  predicate EmailRegistered(users: seq<UserDoc>, email: string)
  {
    exists i :: 0 <= i < |users| && users[i].user.email == email
  }

  /** Some order with this id is still pending. */
  predicate HasPendingOrder(orders: seq<TaxiOrder>, orderId: Id)
  {
    exists i :: 0 <= i < |orders| && orders[i].id == orderId && orders[i].status == OrderStatus.Pending
  }

  /** An order has a driver exactly when it is no longer pending. */
  predicate DriverIffAccepted(orders: seq<TaxiOrder>)
  {
    forall i :: 0 <= i < |orders| ==> (orders[i].status == OrderStatus.Pending <==> orders[i].driverId.None?)
  }

  /** The filter `{"id": orderId, "status": "pending"}` of the accept. */
  function PendingWithId(orderId: Id): TaxiOrder -> bool
  {
    (o: TaxiOrder) => o.id == orderId && o.status == OrderStatus.Pending
  }

  /** The update `{"$set": {"driver_id": driverId, "status": "accepted"}}`. */
  function AssignDriver(driverId: Id): TaxiOrder -> TaxiOrder
  {
    (o: TaxiOrder) => o.(driverId := Some(driverId), status := OrderStatus.Accepted)
  }

  /** The compare-and-set of `accept_taxi_order` on the orders collection:
      every order keeps its id, and an order changes only by going from
      pending to accepted with this driver. */
  function AcceptOrder(orders: seq<TaxiOrder>, orderId: Id, driverId: Id): (r: seq<TaxiOrder>)
    ensures |r| == |orders|
    ensures forall i :: 0 <= i < |r| ==>
              || r[i] == orders[i]
              || (&& orders[i].id == orderId && orders[i].status == OrderStatus.Pending
                  && r[i] == orders[i].(driverId := Some(driverId), status := OrderStatus.Accepted))
  {
    UpdateFirst(orders, PendingWithId(orderId), AssignDriver(driverId))
  }

  /** The compare-and-set admits one driver: once an order has been accepted,
      a later accept of it, by any driver, matches nothing and leaves the
      collection, and so the first driver's id, as it is. */
  lemma AcceptAtMostOnce(orders: seq<TaxiOrder>, orderId: Id, first: Id, second: Id)
    requires Distinct(orders, OrderId)
    ensures var after := AcceptOrder(orders, orderId, first);
            && !HasPendingOrder(after, orderId)
            && AcceptOrder(after, orderId, second) == after
  {
    var m := PendingWithId(orderId);
    assert AtMostOneMatch(orders, m) by {
      forall i, j | 0 <= i < j < |orders| && m(orders[i]) ensures !m(orders[j]) {
        assert OrderId(orders[i]) != OrderId(orders[j]);
      }
    }
    UpdateFirstConsumesMatch(orders, m, AssignDriver(first));
    var after := AcceptOrder(orders, orderId, first);
    assert forall i :: 0 <= i < |after| ==> !m(after[i]);
  }

  function ReviewHasId(reviewId: Id): Review -> bool
  {
    (r: Review) => r.id == reviewId
  }

  function WithReviewStatus(status: ReviewStatus): Review -> Review
  {
    (r: Review) => r.(status := status)
  }

  /** `update_one({"id": reviewId}, {"$set": {"status": status}})` on reviews. */
  function SetReviewStatus(reviews: seq<Review>, reviewId: Id, status: ReviewStatus): (r: seq<Review>)
    ensures |r| == |reviews|
    ensures forall i :: 0 <= i < |r| ==>
              r[i] == reviews[i] || (reviews[i].id == reviewId && r[i] == reviews[i].(status := status))
  {
    UpdateFirst(reviews, ReviewHasId(reviewId), WithReviewStatus(status))
  }

  /** Moderating a review twice with the same verdict is moderating it once. */
  lemma SetReviewStatusIdempotent(reviews: seq<Review>, reviewId: Id, status: ReviewStatus)
    ensures SetReviewStatus(SetReviewStatus(reviews, reviewId, status), reviewId, status)
            == SetReviewStatus(reviews, reviewId, status)
  {
    UpdateFirstIdempotent(reviews, ReviewHasId(reviewId), WithReviewStatus(status));
  }

  /** An unknown review id leaves the reviews as they were. */
  lemma SetReviewStatusUnknown(reviews: seq<Review>, reviewId: Id, status: ReviewStatus)
    requires forall i :: 0 <= i < |reviews| ==> reviews[i].id != reviewId
    ensures SetReviewStatus(reviews, reviewId, status) == reviews
  {
    assert NoMatch(reviews, ReviewHasId(reviewId));
  }

  function SubmissionHasId(submissionId: Id): TaskSubmission -> bool
  {
    (s: TaskSubmission) => s.id == submissionId
  }

  /** `{"$set": {"status": status, "verified_at": now}}`. */
  function ResolveSubmission(status: SubmissionStatus, now: Timestamp): TaskSubmission -> TaskSubmission
  {
    (s: TaskSubmission) => s.(status := status, verifiedAt := Some(now))
  }

  /** `{"$set": {"status": "error"}}`. */
  function MarkSubmissionError(): TaskSubmission -> TaskSubmission
  {
    (s: TaskSubmission) => s.(status := SubmissionStatus.Error)
  }

  /** The log entry of a partner-hotel discount. */
  function SpendEntry(id: Id, userId: Id, coins: int, hotelName: string, now: Timestamp): EcocoinTransaction
  {
    EcocoinTransaction(id, userId, -coins, Spent, "Hotel booking: " + hotelName, now)
  }

  /** The log entry of an approved task. */
  function EarnEntry(id: Id, userId: Id, task: Task, now: Timestamp): EcocoinTransaction
  {
    EcocoinTransaction(id, userId, task.rewardCoins, Earned, "Task completed: " + task.titleEn, now)
  }

  /** Every task pays a positive reward, as every seeded task does. */
  predicate RewardsPositive(tasks: map<Id, Task>)
  {
    forall id :: id in tasks ==> tasks[id].rewardCoins > 0
  }

  class Store {
    var users: seq<UserDoc>
    var transactions: seq<EcocoinTransaction>
    var bookings: seq<Booking>
    var taxiOrders: seq<TaxiOrder>
    var reviews: seq<Review>
    var submissions: seq<TaskSubmission>
    var hotels: map<Id, Hotel>
    var tasks: map<Id, Task>

    /** Ids and emails are unique, every balance is the initial grant plus
        the user's logged amounts and is never negative, debits are logged
        negative and credits positive, every task pays a positive reward, and
        an order carries a driver exactly when it has been accepted. */
    ghost predicate Valid()
      reads this
    {
      && Distinct(users, UserId)
      && Distinct(users, UserEmail)
      && Balanced(users, transactions)
      && BalancesNonNegative(users)
      && DebitsNegative(transactions)
      && CreditsPositive(transactions)
      && RewardsPositive(tasks)
      && Distinct(taxiOrders, OrderId)
      && DriverIffAccepted(taxiOrders)
      && Distinct(reviews, ReviewId)
      && Distinct(submissions, SubmissionId)
    }

    /** A store with the given reference data and no user activity. */
    constructor (hotels: map<Id, Hotel>, tasks: map<Id, Task>)
      requires RewardsPositive(tasks)
      ensures Valid()
      ensures this.hotels == hotels && this.tasks == tasks
      ensures users == [] && transactions == [] && bookings == []
      ensures taxiOrders == [] && reviews == [] && submissions == []
    {
      this.hotels := hotels;
      this.tasks := tasks;
      users, transactions, bookings := [], [], [];
      taxiOrders, reviews, submissions := [], [], [];
    }

    /** `register`: a request whose role is not one of the three fails
        validation (422); a known email is refused (400); otherwise one user
        is added with the initial grant of coins and the requested role. */
    method Register(request: UserRegister, newId: Id, passwordHash: string, now: Timestamp)
      returns (r: Result<User>)
      requires Valid()
      requires !HasUser(users, newId)
      requires forall i :: 0 <= i < |transactions| ==> transactions[i].userId != newId
      modifies this`users
      ensures Valid()
      ensures ParseRole(request.role).None? ==> r == Err(UnprocessableEntity) && users == old(users)
      ensures ParseRole(request.role).Some? && EmailRegistered(old(users), request.email) ==>
                r == Err(BadRequest) && users == old(users)
      ensures ParseRole(request.role).Some? && !EmailRegistered(old(users), request.email) ==>
                && r == Ok(User(newId, request.email, request.name, ParseRole(request.role).value,
                                InitialBalance, now))
                && users == old(users) + [UserDoc(r.value, passwordHash)]
    {
      var role := ParseRole(request.role);
      if role.None? {
        return Err(UnprocessableEntity);
      }
      var existing := FindFirst(users, (d: UserDoc) => d.user.email == request.email);
      if existing.Some? {
        return Err(BadRequest);
      }
      var user := User(newId, request.email, request.name, role.value, InitialBalance, now);
      var doc := UserDoc(user, passwordHash);
      NewUserKeepsBalanced(users, transactions, doc);
      users := users + [doc];
      r := Ok(user);
    }

    /** `create_review`: a pending review by the caller, under the caller's
        stored name; any role may post, and the rating is taken as given.
        A caller without a users document makes the handler fail (500). */
    method CreateReview(caller: Caller, attractionId: Id, data: ReviewCreate, newId: Id, now: Timestamp)
      returns (r: Result<Review>)
      requires Valid()
      requires forall i :: 0 <= i < |reviews| ==> reviews[i].id != newId
      modifies this`reviews
      ensures Valid()
      ensures !HasUser(users, caller.userId) ==> r == Err(InternalServerError) && reviews == old(reviews)
      ensures forall i :: 0 <= i < |users| && users[i].user.id == caller.userId ==>
                && r == Ok(Review(newId, attractionId, caller.userId, users[i].user.name,
                                  data.rating, data.comment, ReviewStatus.Pending, now))
                && reviews == old(reviews) + [r.value]
    {
      var author := FindUser(users, caller.userId);
      if author.None? {
        return Err(InternalServerError);
      }
      var review := Review(newId, attractionId, caller.userId, author.value.user.name,
                           data.rating, data.comment, ReviewStatus.Pending, now);
      reviews := reviews + [review];
      r := Ok(review);
    }

    /** `book_hotel`: an unknown hotel is 404 with nothing written. Otherwise
        the booking row is stored first, at one night's price. A partner hotel
        then takes `min(100, balance)` coins from the caller, logging one
        "spent" entry when that is positive; if the caller has no users
        document the handler fails (500) after the row is stored. */
    method BookHotel(caller: Caller, hotelId: Id, checkIn: string, checkOut: string, guests: int,
                     bookingId: Id, transactionId: Id, now: Timestamp)
      returns (r: Result<Booking>)
      requires Valid()
      modifies this`bookings, this`users, this`transactions
      ensures Valid()
      ensures hotelId !in hotels ==>
                && r == Err(NotFound)
                && bookings == old(bookings) && users == old(users) && transactions == old(transactions)
      ensures hotelId in hotels ==>
                bookings == old(bookings) + [Booking(bookingId, caller.userId, hotelId, hotels[hotelId].name,
                                                     checkIn, checkOut, guests, hotels[hotelId].pricePerNight,
                                                     PaymentCompleted, now)]
      ensures hotelId in hotels && !hotels[hotelId].isPartner ==>
                && r == Ok(bookings[|bookings| - 1])
                && users == old(users) && transactions == old(transactions)
      ensures hotelId in hotels && hotels[hotelId].isPartner && !HasUser(old(users), caller.userId) ==>
                && r == Err(InternalServerError)
                && users == old(users) && transactions == old(transactions)
      ensures hotelId in hotels && hotels[hotelId].isPartner && HasUser(old(users), caller.userId) ==>
                && r == Ok(bookings[|bookings| - 1])
                && |users| == |old(users)|
                && (forall i :: 0 <= i < |users| && old(users)[i].user.id != caller.userId ==>
                      users[i] == old(users)[i])
                && (forall i :: 0 <= i < |users| && old(users)[i].user.id == caller.userId ==>
                      var coins := CoinsTaken(old(users)[i].user.ecocoinBalance);
                      && users[i] == AddCoins(old(users)[i], -coins)
                      && transactions == old(transactions) +
                           if coins > 0 then [SpendEntry(transactionId, caller.userId, coins, hotels[hotelId].name, now)]
                           else [])
    {
      if hotelId !in hotels {
        return Err(NotFound);
      }
      var hotel := hotels[hotelId];
      var booking := Booking(bookingId, caller.userId, hotelId, hotel.name, checkIn, checkOut, guests,
                             hotel.pricePerNight, PaymentCompleted, now);
      bookings := bookings + [booking];
      if hotel.isPartner {
        var found := TakeDiscount(caller.userId, transactionId, hotel.name, now);
        if !found {
          return Err(InternalServerError);
        }
      }
      r := Ok(booking);
    }

    /** The partner discount of `book_hotel`: `min(100, balance)` coins leave
        the user's balance with one "spent" entry when that is positive; a
        user without a users document is reported as not found and nothing
        changes. */
    method TakeDiscount(userId: Id, transactionId: Id, hotelName: string, now: Timestamp)
      returns (found: bool)
      requires Valid()
      modifies this`users, this`transactions
      ensures Valid()
      ensures found == HasUser(old(users), userId)
      ensures !found ==> users == old(users) && transactions == old(transactions)
      ensures found ==>
                && |users| == |old(users)|
                && (forall i :: 0 <= i < |users| && old(users)[i].user.id != userId ==>
                      users[i] == old(users)[i])
                && (forall i :: 0 <= i < |users| && old(users)[i].user.id == userId ==>
                      var coins := CoinsTaken(old(users)[i].user.ecocoinBalance);
                      && users[i] == AddCoins(old(users)[i], -coins)
                      && transactions == old(transactions) +
                           if coins > 0 then [SpendEntry(transactionId, userId, coins, hotelName, now)]
                           else [])
    {
      var user := FindUser(users, userId);
      if user.None? {
        return false;
      }
      var coinsUsed := Min(100, user.value.user.ecocoinBalance);
      if coinsUsed > 0 {
        Post(SpendEntry(transactionId, userId, coinsUsed, hotelName, now));
      }
      found := true;
    }

    /** `create_taxi_order`: a pending order without a driver, placed by the caller. */
    method CreateTaxiOrder(caller: Caller, data: TaxiOrderCreate, newId: Id, now: Timestamp)
      returns (order: TaxiOrder)
      requires Valid()
      requires forall i :: 0 <= i < |taxiOrders| ==> taxiOrders[i].id != newId
      modifies this`taxiOrders
      ensures Valid()
      ensures order == TaxiOrder(newId, caller.userId, None, data.fromLocation, data.toLocation,
                                 OrderStatus.Pending, now)
      ensures taxiOrders == old(taxiOrders) + [order]
    {
      order := TaxiOrder(newId, caller.userId, None, data.fromLocation, data.toLocation,
                         OrderStatus.Pending, now);
      taxiOrders := taxiOrders + [order];
    }

    /** `accept_taxi_order`: only a driver may accept (403). The accept is a
        compare-and-set on a pending order with that id: it records the
        caller as driver and marks the order accepted, touching no other
        order; with no such order it fails (404) and changes nothing. */
    method AcceptTaxiOrder(caller: Caller, orderId: Id) returns (r: Result<()>)
      requires Valid()
      modifies this`taxiOrders
      ensures Valid()
      ensures caller.role != TaxiDriver ==> r == Err(Forbidden) && taxiOrders == old(taxiOrders)
      ensures caller.role == TaxiDriver && !HasPendingOrder(old(taxiOrders), orderId) ==>
                r == Err(NotFound) && taxiOrders == old(taxiOrders)
      ensures caller.role == TaxiDriver && HasPendingOrder(old(taxiOrders), orderId) ==>
                && r == Ok(())
                && |taxiOrders| == |old(taxiOrders)|
                && forall i :: 0 <= i < |taxiOrders| ==>
                     taxiOrders[i] == if old(taxiOrders)[i].id == orderId
                                      then old(taxiOrders)[i].(driverId := Some(caller.userId),
                                                               status := OrderStatus.Accepted)
                                      else old(taxiOrders)[i]
    {
      if caller.role != TaxiDriver {
        return Err(Forbidden);
      }
      var m := PendingWithId(orderId);
      if FindIndex(taxiOrders, m).None? {
        return Err(NotFound);
      }
      assert AtMostOneMatch(taxiOrders, m) by {
        forall i, j | 0 <= i < j < |taxiOrders| && m(taxiOrders[i]) ensures !m(taxiOrders[j]) {
          assert OrderId(taxiOrders[i]) != OrderId(taxiOrders[j]);
        }
      }
      UpdateFirstSingle(taxiOrders, m, AssignDriver(caller.userId));
      ghost var before := taxiOrders;
      taxiOrders := AcceptOrder(taxiOrders, orderId, caller.userId);
      assert forall i :: 0 <= i < |before| && before[i].id == orderId ==> m(before[i]) by {
        forall i | 0 <= i < |before| && before[i].id == orderId ensures m(before[i]) {
          var k :| 0 <= k < |before| && before[k].id == orderId && before[k].status == OrderStatus.Pending;
          assert OrderId(before[k]) == OrderId(before[i]);
        }
      }
      r := Ok(());
    }

    /** `submit_task`: the submission is stored as "verifying"; the task id is
        not checked and earlier submissions are not looked at. */
    method SubmitTask(caller: Caller, data: TaskSubmissionCreate, newId: Id, now: Timestamp)
      returns (submission: TaskSubmission)
      requires Valid()
      requires forall i :: 0 <= i < |submissions| ==> submissions[i].id != newId
      modifies this`submissions
      ensures Valid()
      ensures submission == TaskSubmission(newId, caller.userId, data.taskId, data.imageBase64,
                                           SubmissionStatus.Verifying, None, now)
      ensures submissions == old(submissions) + [submission]
    {
      submission := TaskSubmission(newId, caller.userId, data.taskId, data.imageBase64,
                                   SubmissionStatus.Verifying, None, now);
      submissions := submissions + [submission];
    }

    /** `verify_task_submission`, run after `submit_task` with the outcome of
        the model call as input. An unknown task changes nothing. A raised
        call marks the submission "error". A reply containing "VERIFIED"
        (any case) approves the submission, credits the task's reward to the
        user and logs one "earned" entry; any other reply rejects it with no
        coin movement. Absent submissions or users are skipped by their
        updates; the log entry is written regardless. */
    method VerifyTaskSubmission(submissionId: Id, taskId: Id, userId: Id, outcome: LlmOutcome,
                                transactionId: Id, now: Timestamp)
      requires Valid()
      modifies this`submissions, this`users, this`transactions
      ensures Valid()
      ensures taskId !in tasks ==>
                submissions == old(submissions) && users == old(users) && transactions == old(transactions)
      ensures taskId in tasks ==> |submissions| == |old(submissions)|
      ensures taskId in tasks && outcome.Raised? ==>
                && users == old(users) && transactions == old(transactions)
                && forall i :: 0 <= i < |submissions| ==>
                     submissions[i] == if old(submissions)[i].id == submissionId
                                       then old(submissions)[i].(status := SubmissionStatus.Error)
                                       else old(submissions)[i]
      ensures taskId in tasks && outcome.Reply? && !IsVerified(outcome.text) ==>
                && users == old(users) && transactions == old(transactions)
                && forall i :: 0 <= i < |submissions| ==>
                     submissions[i] == if old(submissions)[i].id == submissionId
                                       then old(submissions)[i].(status := SubmissionStatus.Rejected,
                                                                 verifiedAt := Some(now))
                                       else old(submissions)[i]
      ensures taskId in tasks && outcome.Reply? && IsVerified(outcome.text) ==>
                && (forall i :: 0 <= i < |submissions| ==>
                      submissions[i] == if old(submissions)[i].id == submissionId
                                        then old(submissions)[i].(status := SubmissionStatus.Approved,
                                                                  verifiedAt := Some(now))
                                        else old(submissions)[i])
                && |users| == |old(users)|
                && (forall i :: 0 <= i < |users| ==>
                      users[i] == if old(users)[i].user.id == userId
                                  then AddCoins(old(users)[i], tasks[taskId].rewardCoins)
                                  else old(users)[i])
                && transactions == old(transactions) + [EarnEntry(transactionId, userId, tasks[taskId], now)]
    {
      if taskId !in tasks {
        return;
      }
      var task := tasks[taskId];
      match outcome {
        case Raised =>
          UpdateSubmission(submissionId, MarkSubmissionError());
        case Reply(text) =>
          if IsVerified(text) {
            UpdateSubmission(submissionId, ResolveSubmission(SubmissionStatus.Approved, now));
            Post(EarnEntry(transactionId, userId, task, now));
          } else {
            UpdateSubmission(submissionId, ResolveSubmission(SubmissionStatus.Rejected, now));
          }
      }
    }

    /** One `update_one({"id": submissionId}, ...)` on submissions whose
        update keeps the id: with unique ids it rewrites exactly that
        submission. */
    method UpdateSubmission(submissionId: Id, f: TaskSubmission -> TaskSubmission)
      requires Valid()
      requires forall x :: f(x).id == x.id
      modifies this`submissions
      ensures Valid()
      ensures |submissions| == |old(submissions)|
      ensures forall i :: 0 <= i < |submissions| ==>
                submissions[i] == if old(submissions)[i].id == submissionId then f(old(submissions)[i])
                                  else old(submissions)[i]
    {
      var m := SubmissionHasId(submissionId);
      assert AtMostOneMatch(submissions, m) by {
        forall i, j | 0 <= i < j < |submissions| && m(submissions[i]) ensures !m(submissions[j]) {
          assert SubmissionId(submissions[i]) != SubmissionId(submissions[j]);
        }
      }
      UpdateFirstSingle(submissions, m, f);
      UpdateFirstKeepsDistinct(submissions, m, f, SubmissionId);
      submissions := UpdateFirst(submissions, m, f);
    }

    /** One coin movement: the `$inc` on the user's balance together with
        its log entry, which must not overdraw the user. It keeps the ledger
        balanced. */
    method Post(t: EcocoinTransaction)
      requires Valid()
      requires t.kind == Spent ==> t.amount < 0
      requires t.kind == Earned ==> t.amount > 0
      requires forall i :: 0 <= i < |users| && users[i].user.id == t.userId ==>
                 users[i].user.ecocoinBalance + t.amount >= 0
      modifies this`users, this`transactions
      ensures Valid()
      ensures users == IncBalance(old(users), t.userId, t.amount)
      ensures transactions == old(transactions) + [t]
      ensures |users| == |old(users)|
      ensures forall i :: 0 <= i < |users| ==>
                users[i] == if old(users)[i].user.id == t.userId then AddCoins(old(users)[i], t.amount)
                            else old(users)[i]
    {
      PostingKeepsLedger(users, transactions, t);
      users := IncBalance(users, t.userId, t.amount);
      transactions := transactions + [t];
    }

    /** `approve_review`: admin only (403); otherwise the review with that id,
        whatever its status, becomes approved; an unknown id changes nothing. */
    method ApproveReview(caller: Caller, reviewId: Id) returns (r: Result<()>)
      requires Valid()
      modifies this`reviews
      ensures Valid()
      ensures caller.role != Admin ==> r == Err(Forbidden) && reviews == old(reviews)
      ensures caller.role == Admin ==>
                && r == Ok(())
                && reviews == SetReviewStatus(old(reviews), reviewId, ReviewStatus.Approved)
                && |reviews| == |old(reviews)|
                && forall i :: 0 <= i < |reviews| ==>
                     reviews[i] == if old(reviews)[i].id == reviewId
                                   then old(reviews)[i].(status := ReviewStatus.Approved)
                                   else old(reviews)[i]
    {
      if caller.role != Admin {
        return Err(Forbidden);
      }
      ModerationPointwise(reviewId, ReviewStatus.Approved);
      reviews := SetReviewStatus(reviews, reviewId, ReviewStatus.Approved);
      r := Ok(());
    }

    /** `reject_review`: as `approve_review`, with the status rejected. */
    method RejectReview(caller: Caller, reviewId: Id) returns (r: Result<()>)
      requires Valid()
      modifies this`reviews
      ensures Valid()
      ensures caller.role != Admin ==> r == Err(Forbidden) && reviews == old(reviews)
      ensures caller.role == Admin ==>
                && r == Ok(())
                && reviews == SetReviewStatus(old(reviews), reviewId, ReviewStatus.Rejected)
                && |reviews| == |old(reviews)|
                && forall i :: 0 <= i < |reviews| ==>
                     reviews[i] == if old(reviews)[i].id == reviewId
                                   then old(reviews)[i].(status := ReviewStatus.Rejected)
                                   else old(reviews)[i]
    {
      if caller.role != Admin {
        return Err(Forbidden);
      }
      ModerationPointwise(reviewId, ReviewStatus.Rejected);
      reviews := SetReviewStatus(reviews, reviewId, ReviewStatus.Rejected);
      r := Ok(());
    }

    /** With unique review ids, moderation rewrites exactly the named review. */
    lemma ModerationPointwise(reviewId: Id, status: ReviewStatus)
      requires Distinct(reviews, ReviewId)
      ensures var after := SetReviewStatus(reviews, reviewId, status);
              && |after| == |reviews|
              && forall i :: 0 <= i < |reviews| ==>
                   after[i] == if reviews[i].id == reviewId then reviews[i].(status := status) else reviews[i]
    {
      var m := ReviewHasId(reviewId);
      assert AtMostOneMatch(reviews, m) by {
        forall i, j | 0 <= i < j < |reviews| && m(reviews[i]) ensures !m(reviews[j]) {
          assert ReviewId(reviews[i]) != ReviewId(reviews[j]);
        }
      }
      UpdateFirstSingle(reviews, m, WithReviewStatus(status));
    }

    /** `recreate_database`: the reference collections are emptied and
        re-seeded; the collections user activity writes are left as they are. */
    method RecreateDatabase(seedHotels: map<Id, Hotel>, seedTasks: map<Id, Task>)
      requires Valid()
      requires RewardsPositive(seedTasks)
      modifies this`hotels, this`tasks
      ensures Valid()
      ensures hotels == seedHotels && tasks == seedTasks
      ensures users == old(users) && transactions == old(transactions) && bookings == old(bookings)
      ensures taxiOrders == old(taxiOrders) && reviews == old(reviews) && submissions == old(submissions)
    {
      hotels := seedHotels;
      tasks := seedTasks;
    }
  }
}
