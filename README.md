# EcoSayahat backend workflow ledger in Dafny

This project models the request handlers of the EcoSayahat eco-tourism backend (`backend/server.py`) and the record types they use (`backend/models.py`). It covers:

- registration and login;
- hotel booking with the eco-coin discount at partner hotels;
- taxi dispatch, where drivers accept pending orders;
- photo tasks that a language model verifies and that pay eco-coins;
- review posting and admin moderation;
- the leaderboard and admin statistics queries.

The store is one class, `Server.Store`. Each field is one document collection. The write handlers are methods that change the collections. The read handlers are the functions of module `Queries`, applied to the store's collections.

- Every handler runs atomically, with no interleaving.
- The caller is a decoded `(user id, role)` pair.
- A handler returns its result or the HTTP error code it raises (`Common.Result`, `Common.HttpError`).
- Generated uuids and clock readings are parameters of the handlers. Timestamps are natural numbers that order like the ISO strings the code stores.

Modules:

- `Common`: `Option`, `Result`, HTTP error codes.
- `Models`: the pydantic records, their defaults, and the role literal.
- `Collections`: the document-store primitives `find_one`, `update_one`, `find`, `count_documents` and `.sort(-1).to_list(k)`.
  - A collection is a sequence in natural (insertion) order.
  - `update_one` rewrites the first matching document.
- `Ledger`: the eco-coin balances and the transaction log.
  - Invariant: every balance is 100 plus the sum of that user's logged amounts.
- `Verdict`: the `"VERIFIED" in response.upper()` test.
- `Queries`: the read handlers as filter/sort/count specifications.
- `Server`: the store class, its invariant `Valid()`, and the write handlers.
  - `Valid()` requires unique ids and emails, a balanced ledger, non-negative balances, negative debits, positive credits, positive task rewards, and drivers exactly on accepted orders.
- `Scenarios`: request sequences on a fresh store, pinned down by the handlers' contracts.

Behaviour of the code that the model keeps as written:

- A caller without a users document makes `create_review`, `get_balance` and partner-hotel `book_hotel` fail with an unhandled error (500). In `book_hotel` the booking row is already stored when that happens.
- `verify_task_submission` logs the "earned" transaction even when the user's `$inc` matched nothing.
- The code guards only the taxi accept with a status check. Review moderation overwrites any status, and nothing stops a second submission or a second verification of the same task. The model has the same unguarded updates.

## Model

| member | source | states |
|---|---|---|
| Models.ParseRole | ecosayahat-main/backend/models.py:10 | a registration role is accepted exactly when it is "tourist", "taxi_driver" or "admin", and parses to the role of that name |
| Models.RoleNameRoundTrip | ecosayahat-main/backend/models.py:10 | every role's stored name parses back to that role |
| Models.UserDefaultBalance | ecosayahat-main/backend/models.py:16-23 | a user built without a balance holds 0 coins |
| Models.ReviewDefaultStatus | ecosayahat-main/backend/models.py:54-63 | a review built without a status is pending |
| Models.HotelDefaultNotPartner | ecosayahat-main/backend/models.py:70-79 | the `Hotel` record built without the partner flag is not a partner (the record's default only: `book_hotel` reads the stored document's flag directly) |
| Models.TaxiOrderDefaults | ecosayahat-main/backend/models.py:81-93 | a new order has no driver and is pending |
| Models.TaskSubmissionDefaults | ecosayahat-main/backend/models.py:116-124 | a submission built without status has status pending and no verification time |
| Collections.FindFirst | ecosayahat-main/backend/server.py:38 | `find_one` finds nothing exactly when no document matches; otherwise it returns a stored document that matches, with no match before it |
| Collections.UpdateFirst | ecosayahat-main/backend/server.py:218-221 | `update_one` keeps the length, changes nothing when nothing matches, and rewrites only the first matching document |
| Collections.UpdateFirstSingle | ecosayahat-main/backend/server.py:372 | when at most one document matches, `update_one` rewrites exactly the matching documents |
| Collections.UpdateFirstIdempotent | ecosayahat-main/backend/server.py:372 | repeating an update that keeps the match and is idempotent changes nothing more |
| Collections.UpdateFirstConsumesMatch | ecosayahat-main/backend/server.py:218-221 | an update that makes its document stop matching leaves no match when there was at most one |
| Collections.UpdateFirstKeepsDistinct | ecosayahat-main/backend/server.py:281-284 | an update that keeps a key field keeps that key unique |
| Collections.Filter | ecosayahat-main/backend/server.py:100-103 | `find(filter)` returns exactly the matching documents, each as often as stored |
| Collections.FilterAppend | ecosayahat-main/backend/server.py:100-103 | `find(filter)` lists matches in natural order: the matches of an earlier part of the collection come before those of a later part |
| Collections.FilterCountsMatches | ecosayahat-main/backend/server.py:388-391 | `count_documents(filter)` equals the number of matching positions |
| Collections.TopByKey | ecosayahat-main/backend/server.py:326-329 | `.sort(key, -1).limit(k)` returns min(k, n) documents from the input, in non-increasing key order, and all of them when n <= k |
| Collections.TopByKeyExcluded | ecosayahat-main/backend/server.py:326-329 | a document left out has a key no larger than any listed one |
| Ledger.FindUser | ecosayahat-main/backend/server.py:108 | the user lookup fails exactly when no user has the id, and with unique ids returns that user |
| Ledger.IncBalance | ecosayahat-main/backend/server.py:156-159 | `$inc` on a balance adds the amount to that user alone and keeps every other user |
| Ledger.PostingKeepsBalanced | ecosayahat-main/backend/server.py:155-167 | one `$inc` paired with one logged entry of the same amount keeps every balance equal to 100 plus the user's logged amounts |
| Ledger.NewUserKeepsBalanced | ecosayahat-main/backend/server.py:46 | a new user with the 100-coin grant and no logged entries keeps the ledger balanced |
| Ledger.PostingKeepsLedger | ecosayahat-main/backend/server.py:286-298 | posting keeps ids and emails unique, keeps debits negative, and keeps balances non-negative when it cannot overdraw |
| Ledger.CoinsTaken | ecosayahat-main/backend/server.py:154-155 | the partner discount takes between 0 and 100 coins, never more than the balance, and leaves max(0, balance - 100) |
| Verdict.Upper | ecosayahat-main/backend/server.py:280 | upper-casing keeps the length and maps each character (ASCII letters only) |
| Verdict.Contains | ecosayahat-main/backend/server.py:280 | `in` on strings holds exactly when the pattern occurs at some position |
| Verdict.IsVerified | ecosayahat-main/backend/server.py:280 | a reply approves only when some eight consecutive characters of it upper-case to "VERIFIED"; a reply shorter than the marker never approves |
| Verdict.UpperKeepsUpperCase | ecosayahat-main/backend/server.py:280 | upper-casing a string without lower-case ASCII letters changes nothing |
| Verdict.VerifiedRepliesApprove | ecosayahat-main/backend/server.py:280 | the replies "VERIFIED" and "verified" approve |
| Verdict.RejectedReplyRejects | ecosayahat-main/backend/server.py:266-280 | the reply "REJECTED" that the prompt asks for does not approve |
| Verdict.UpperConcat | ecosayahat-main/backend/server.py:280 | upper-casing distributes over concatenation |
| Verdict.MarkerSuffixApproves | ecosayahat-main/backend/server.py:280 | every reply that ends in "VERIFIED" approves, whatever precedes it |
| Verdict.NegatedReplyIsVerified | ecosayahat-main/backend/server.py:280 | the reply "NOT VERIFIED" approves |
| Queries.PublicReviews | ecosayahat-main/backend/server.py:98-104 | `get_reviews` lists at most 100 reviews, never more than are stored; its contents and order are the four PublicReviews lemmas below |
| Queries.PublicReviewsApprovedOnly | ecosayahat-main/backend/server.py:98-104 | the public list holds only stored, approved reviews of that attraction |
| Queries.PublicReviewsNewestFirst | ecosayahat-main/backend/server.py:98-104 | the public list is ordered newest first |
| Queries.PublicReviewsCount | ecosayahat-main/backend/server.py:98-104 | the public list has one entry per approved review of the attraction, capped at 100 |
| Queries.PublicReviewsOmitOnlyOlder | ecosayahat-main/backend/server.py:98-104 | an approved review is left out only when 100 reviews are listed, none of them older |
| Queries.AllReviews | ecosayahat-main/backend/server.py:359-365 | non-admins get 403 and only they do; admins get min(100, n) stored reviews newest first, and all of them when there are at most 100 |
| Queries.VisibleOrders | ecosayahat-main/backend/server.py:205-211 | `get_taxi_orders` lists at most 100 orders, never more than are stored; which ones is the three VisibleOrders lemmas below |
| Queries.VisibleOrdersSound | ecosayahat-main/backend/server.py:205-211 | a driver is shown only stored pending orders, anyone else only their own, at most 100 |
| Queries.VisibleOrdersComplete | ecosayahat-main/backend/server.py:205-211 | below the cap, every order the caller may see is listed |
| Queries.VisibleOrdersCount | ecosayahat-main/backend/server.py:205-211 | the list has one entry per visible order, capped at 100 |
| Queries.Leaderboard | ecosayahat-main/backend/server.py:324-330 | `get_leaderboard` has at most 10 rows, never more than there are users; its rows and order are the three Leaderboard lemmas below |
| Queries.LeaderboardShape | ecosayahat-main/backend/server.py:324-330 | the leaderboard has min(10, number of tourists) rows in non-increasing balance order |
| Queries.LeaderboardTouristsOnly | ecosayahat-main/backend/server.py:324-330 | every row is the name and balance of a stored tourist |
| Queries.LeaderboardOmitsOnlyPoorer | ecosayahat-main/backend/server.py:324-330 | a tourist is left off only when ten richer-or-equal tourists are listed |
| Queries.Stats | ecosayahat-main/backend/server.py:383-398 | `get_admin_stats` refuses exactly the non-admins, with 403; the completed-task and pending-review counters never exceed their collections |
| Queries.StatsCounts | ecosayahat-main/backend/server.py:383-398 | non-admins get 403; admins get the number of users, of orders, of approved submissions and of pending reviews |
| Queries.BalanceOf | ecosayahat-main/backend/server.py:311-314 | a caller without a users document gets 500 and only such a caller; otherwise the stored balance |
| Queries.Login | ecosayahat-main/backend/server.py:58-69 | every failure is 401; an unknown email fails; with unique emails a login succeeds exactly when the password verifies, returning that user |
| Server.AcceptOrder | ecosayahat-main/backend/server.py:218-221 | the accept's compare-and-set keeps every order, and changes an order only if it is a pending order with that id, which becomes accepted with the driver set |
| Server.AcceptAtMostOnce | ecosayahat-main/backend/server.py:213-226 | after one accept of an order no pending order with that id remains, so a later accept by any driver changes nothing |
| Server.SetReviewStatus | ecosayahat-main/backend/server.py:372 | the moderation `update_one` keeps every review, and changes a review only if it has that id, and then only its status |
| Server.SetReviewStatusIdempotent | ecosayahat-main/backend/server.py:367-381 | setting a review's status twice equals setting it once |
| Server.SetReviewStatusUnknown | ecosayahat-main/backend/server.py:367-381 | moderating an unknown review id changes no review |
| Server.Store.constructor | ecosayahat-main/backend/server.py:27-29 | a store starts with the given hotels and tasks and no user activity, and satisfies the invariant |
| Server.Store.Register | ecosayahat-main/backend/server.py:36-56 | an unknown role is 422 and a known email is 400, both adding no user; otherwise exactly one user is appended, with 100 coins and the requested role; the invariant holds |
| Server.Store.CreateReview | ecosayahat-main/backend/server.py:106-121 | a caller without a users document gets 500 and nothing is stored; otherwise one pending review is appended under the caller's stored name, with the rating taken as given |
| Server.Store.BookHotel | ecosayahat-main/backend/server.py:131-169 | an unknown hotel is 404 with nothing written; otherwise one row is appended at one night's price; a non-partner booking leaves balances and the log unchanged; a partner booking takes min(100, balance) coins and logs one matching debit; a missing user is 500 after the row is stored; balances stay non-negative |
| Server.Store.TakeDiscount | ecosayahat-main/backend/server.py:152-167 | a caller without a users document is reported missing with nothing changed; otherwise only that user loses min(100, balance) coins, and exactly one matching "spent" entry is logged when that is positive; the invariant is kept |
| Server.Store.CreateTaxiOrder | ecosayahat-main/backend/server.py:188-203 | one pending order without a driver is appended for the caller |
| Server.Store.AcceptTaxiOrder | ecosayahat-main/backend/server.py:213-226 | a non-driver gets 403; with no pending order of that id the result is 404; in both cases nothing changes; otherwise that order gets the caller as driver and becomes accepted, and no other order changes |
| Server.Store.SubmitTask | ecosayahat-main/backend/server.py:244-258 | one submission in status verifying, without a verification time, is appended, with no task or duplicate check |
| Server.Store.VerifyTaskSubmission | ecosayahat-main/backend/server.py:260-309 | an unknown task changes nothing; a raised model call sets status error on that submission only; a reply containing "VERIFIED" in any case approves it with a time, credits the reward to that user alone and logs one earned entry; any other reply rejects it with a time and moves no coins |
| Server.Store.UpdateSubmission | ecosayahat-main/backend/server.py:281-284 | an `update_one` by submission id that keeps the id rewrites exactly that submission |
| Server.Store.Post | ecosayahat-main/backend/server.py:286-298 | a balance change and its log entry go together: the user's balance moves by the entry's amount and exactly that entry is appended |
| Server.Store.ApproveReview | ecosayahat-main/backend/server.py:367-373 | a non-admin gets 403 with no change; otherwise the review with that id becomes approved whatever its status, and no other review changes |
| Server.Store.RejectReview | ecosayahat-main/backend/server.py:375-381 | a non-admin gets 403 with no change; otherwise the review with that id becomes rejected whatever its status, and no other review changes |
| Server.Store.ModerationPointwise | ecosayahat-main/backend/server.py:372 | with unique review ids, moderation rewrites exactly the named review |
| Server.Store.RecreateDatabase | ecosayahat-main/backend/server.py:400-414 | hotels and tasks are replaced by the seed data; users, transactions, bookings, orders, reviews and submissions are untouched |
| Scenarios.TwoDriversRace | ecosayahat-main/backend/server.py:213-226 | of two drivers accepting one order, the first succeeds, the second gets 404, and the order keeps the first driver |
| Scenarios.PartnerBookingsDrainToZero | ecosayahat-main/backend/server.py:131-169 | a new tourist's first partner booking spends all 100 coins and logs one debit of -100; a second partner booking and a non-partner booking move no coins; three rows are stored |
| Scenarios.MarkedReplyApproves | ecosayahat-main/backend/server.py:260-298 | a reply that ends in "VERIFIED", such as "NOT VERIFIED", approves the submission and credits the 50-coin reward |

## Left out

- Token and password handling (bcrypt, JWT): the caller is a given `(user id, role)` pair, and password verification is a function parameter of `Login`.
- The language model calls: the task verifier's reply, or the fact that the call raised, is an input of `VerifyTaskSubmission`. The AI chat endpoint is not modelled.
- `asyncio.create_task` scheduling, the MongoDB driver, CORS and logging: each handler is atomic, and verification is a separate method.
- Server.Store.VerifyTaskSubmission: a database error raised after the reply, which the code's `except` also turns into status error, is not modelled. Only a raised model call is.
- Database failures inside other handlers are not modelled.
- Floating-point fields (coordinates, ratings, average ratings) and the localised `_ru`/`_kz` text fields are omitted.
- Seed data and lazy initialisation (`init_*`): the seed hotels and tasks are parameters of the constructor and of `RecreateDatabase`. Regions, attractions and charging stations are not part of the store.
- The contact form, `get_me`, the region, attraction, hotel, task and charging-station listings, and the transaction history listing are outside the workflow and not modelled.
- `EmailStr` validation and normalisation of emails are not modelled. Emails are plain strings, so the duplicate check compares them exactly. pydantic refuses a malformed address (one whose domain has no period, such as "a@kz") with 422, which the model accepts. It also lower-cases the domain, so the code refuses "a@mail.KZ" after "a@mail.kz", while the model registers both.
- Verdict.Upper: upper-cases ASCII letters only. It does not model Python's full Unicode `str.upper()`, which also maps letters such as 'ı' to 'I' and 'ß' to "SS". Verdict.UpperKeepsUpperCase and the "in any letter case" of Verdict.IsVerified and Server.Store.VerifyTaskSubmission hold of this ASCII upper-casing only: the code approves the reply "verıfıed" (dotless ı), which the model rejects.
- Server.Store.BookHotel and Server.Store.VerifyTaskSubmission take one timestamp `now` where the code reads the clock twice (server.py:147 and 165; server.py:283 and 296), so the model stamps the row and its ledger entry with the same time; no contract depends on the two being equal.
- Queries.PublicReviews, Queries.AllReviews and Queries.Leaderboard break ties in sort keys by natural order (a stable sort). MongoDB leaves the order of equal keys unspecified, so the contracts state only the non-increasing order and the contents.
- Collections are sequences rather than id-keyed maps, because the handlers' queries expose natural order and `update_one` rewrites the first match. Unique ids are part of the store invariant instead.
- Timestamps are natural numbers rather than ISO-8601 strings.
- Server.Store.constructor and Server.Store.RecreateDatabase require every task reward to be positive, as every seeded reward is. A stored task with a zero or negative reward, which would log a non-positive "earned" entry, is outside the model.
