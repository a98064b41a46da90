/** EcoCoin balances and the transaction log. Every balance change the
    handlers make is an `$inc` on one users document paired with one
    appended transaction of the same signed amount; this module states the
    resulting invariant and proves that such a posting keeps it. */
module Ledger {
  import opened Common
  import opened Models
  import opened Collections

  /** The balance `register` gives every new user. */
  const InitialBalance := 100

  /** The sum of the logged amounts for one user. */
  function Net(log: seq<EcocoinTransaction>, userId: Id): int
    decreases |log|
  {
    if log == [] then 0
    else
      var last := log[|log| - 1];
      Net(log[..|log| - 1], userId) + (if last.userId == userId then last.amount else 0)
  }

  /** Appending one entry changes exactly its own user's net amount, by the
      entry's amount. */
  lemma NetAppend(log: seq<EcocoinTransaction>, t: EcocoinTransaction, userId: Id)
    ensures Net(log + [t], userId) == Net(log, userId) + (if t.userId == userId then t.amount else 0)
  {
    assert (log + [t])[..|log|] == log;
  }

  /** A user absent from the log has net amount zero. */
  lemma {:induction false} NetAbsent(log: seq<EcocoinTransaction>, userId: Id)
    requires forall i :: 0 <= i < |log| ==> log[i].userId != userId
    ensures Net(log, userId) == 0
    decreases |log|
  {
    if log != [] {
      NetAbsent(log[..|log| - 1], userId);
    }
  }

  function UserId(d: UserDoc): Id { d.user.id }

  function UserEmail(d: UserDoc): string { d.user.email }

  /** Every user's balance is the initial grant plus the user's logged amounts. */
  predicate Balanced(users: seq<UserDoc>, log: seq<EcocoinTransaction>)
  {
    forall i :: 0 <= i < |users| ==> users[i].user.ecocoinBalance == InitialBalance + Net(log, users[i].user.id)
  }

  /** No user holds a negative balance. */
  predicate BalancesNonNegative(users: seq<UserDoc>)
  {
    forall i :: 0 <= i < |users| ==> users[i].user.ecocoinBalance >= 0
  }

  /** Debits are logged with a negative amount. */
  predicate DebitsNegative(log: seq<EcocoinTransaction>)
  {
    forall i :: 0 <= i < |log| ==> log[i].kind == Spent ==> log[i].amount < 0
  }

  /** Credits are logged with a positive amount. */
  predicate CreditsPositive(log: seq<EcocoinTransaction>)
  {
    forall i :: 0 <= i < |log| ==> log[i].kind == Earned ==> log[i].amount > 0
  }

  /** `find_one({"id": userId})` on users. */
  function FindUser(users: seq<UserDoc>, userId: Id): (r: Option<UserDoc>)
    ensures r.None? <==> forall i :: 0 <= i < |users| ==> users[i].user.id != userId
    ensures r.Some? ==> r.value in users && r.value.user.id == userId
    ensures Distinct(users, UserId) ==>
              forall i :: 0 <= i < |users| && users[i].user.id == userId ==> r == Some(users[i])
  {
    var r := FindFirst(users, (d: UserDoc) => d.user.id == userId);
    if r.Some? then
      assert Distinct(users, UserId) ==>
          forall i :: 0 <= i < |users| && users[i].user.id == userId ==> r == Some(users[i]) by {
        if Distinct(users, UserId) {
          forall i | 0 <= i < |users| && users[i].user.id == userId ensures r == Some(users[i]) {
            var k :| 0 <= k < |users| && users[k] == r.value && NoMatch(users[..k], (d: UserDoc) => d.user.id == userId);
            assert UserId(users[k]) == UserId(users[i]);
          }
        }
      }
      r
    else r
  }

  function AddCoins(d: UserDoc, amount: int): UserDoc
  {
    d.(user := d.user.(ecocoinBalance := d.user.ecocoinBalance + amount))
  }

  /** `update_one({"id": userId}, {"$inc": {"ecocoin_balance": amount}})`. */
  function IncBalance(users: seq<UserDoc>, userId: Id, amount: int): (r: seq<UserDoc>)
    ensures |r| == |users|
    ensures Distinct(users, UserId) ==>
              forall i :: 0 <= i < |users| ==>
                r[i] == if users[i].user.id == userId then AddCoins(users[i], amount) else users[i]
  {
    var m := (d: UserDoc) => d.user.id == userId;
    var r := UpdateFirst(users, m, (d: UserDoc) => AddCoins(d, amount));
    if Distinct(users, UserId) then
      assert AtMostOneMatch(users, m) by {
        forall i, j | 0 <= i < j < |users| && m(users[i]) ensures !m(users[j]) {
          assert UserId(users[i]) != UserId(users[j]);
        }
      }
      UpdateFirstSingle(users, m, (d: UserDoc) => AddCoins(d, amount));
      r
    else r
  }

  /** Posting an amount to a user's balance together with one log entry of
      that amount keeps every balance equal to the grant plus its log. */
  lemma PostingKeepsBalanced(users: seq<UserDoc>, log: seq<EcocoinTransaction>, t: EcocoinTransaction)
    requires Distinct(users, UserId)
    requires Balanced(users, log)
    ensures Balanced(IncBalance(users, t.userId, t.amount), log + [t])
  {
    var r := IncBalance(users, t.userId, t.amount);
    forall i | 0 <= i < |r|
      ensures r[i].user.ecocoinBalance == InitialBalance + Net(log + [t], r[i].user.id)
    {
      NetAppend(log, t, users[i].user.id);
    }
  }

  /** Adding a user with the initial grant and an id the log does not
      mention keeps the ledger balanced. */
  lemma NewUserKeepsBalanced(users: seq<UserDoc>, log: seq<EcocoinTransaction>, d: UserDoc)
    requires Balanced(users, log)
    requires d.user.ecocoinBalance == InitialBalance
    requires forall i :: 0 <= i < |log| ==> log[i].userId != d.user.id
    ensures Balanced(users + [d], log)
  {
    NetAbsent(log, d.user.id);
  }

  /** Posting an entry keeps ids and emails unique, debits negative and
      credits positive, and keeps every balance non-negative when the entry
      cannot overdraw its user. */
  lemma PostingKeepsLedger(users: seq<UserDoc>, log: seq<EcocoinTransaction>, t: EcocoinTransaction)
    requires Distinct(users, UserId) && Distinct(users, UserEmail)
    requires Balanced(users, log) && DebitsNegative(log) && CreditsPositive(log)
    requires t.kind == Spent ==> t.amount < 0
    requires t.kind == Earned ==> t.amount > 0
    ensures var after := IncBalance(users, t.userId, t.amount);
            && Distinct(after, UserId) && Distinct(after, UserEmail)
            && Balanced(after, log + [t]) && DebitsNegative(log + [t]) && CreditsPositive(log + [t])
            && (BalancesNonNegative(users)
                && (forall i :: 0 <= i < |users| && users[i].user.id == t.userId ==>
                      users[i].user.ecocoinBalance + t.amount >= 0)
                ==> BalancesNonNegative(after))
  {
    PostingKeepsBalanced(users, log, t);
    var after := IncBalance(users, t.userId, t.amount);
    assert forall i :: 0 <= i < |users| ==>
      UserId(after[i]) == UserId(users[i]) && UserEmail(after[i]) == UserEmail(users[i]);
  }

  /** The coins a partner-hotel booking takes from a balance:
      `min(100, balance)`, debited only when positive. */
  function CoinsTaken(balance: int): (c: int)
    ensures 0 <= c <= 100
    ensures c <= Max(0, balance)
    ensures balance >= 0 ==> balance - c == Max(0, balance - 100)
    ensures balance <= 0 ==> c == 0
  {
    var used := Min(100, balance);
    if used > 0 then used else 0
  }
}
