/** Whole request sequences run against a fresh store, each pinned down by
    the handlers' contracts. */
module Scenarios {
  import opened Common
  import opened Models
  import opened Ledger
  import opened Verdict
  import opened Server

  const Bay: Hotel := Hotel("h1", "burabay", "Bay Lodge", "", 20000, true, "")
  const Plain: Hotel := Hotel("h2", "burabay", "Plain Inn", "", 15000, false, "")
  const Recycle: Task := Task("t1", "Recycle", "", 50, "recycling", true)

  /** Two drivers accept the same order one after the other: the first wins,
      the second gets 404, and the order keeps the first driver. */
  method TwoDriversRace() returns (first: Result<()>, second: Result<()>, driver: Option<Id>)
    ensures first == Ok(())
    ensures second == Err(NotFound)
    ensures driver == Some("d1")
  {
    var store := new Store(map[], map[]);
    var order := store.CreateTaxiOrder(Caller("u1", Tourist), TaxiOrderCreate("Astana", "Burabay"), "o1", 1);
    first := store.AcceptTaxiOrder(Caller("d1", TaxiDriver), "o1");
    second := store.AcceptTaxiOrder(Caller("d2", TaxiDriver), "o1");
    assert store.taxiOrders[0].id == "o1";
    driver := store.taxiOrders[0].driverId;
  }

  /** A new tourist holds 100 coins; a partner-hotel booking spends all of
      them and logs one debit of -100; a second partner booking and a
      non-partner booking then move no coins and log nothing. */
  method PartnerBookingsDrainToZero()
    returns (start: int, afterFirst: int, afterSecond: int, entries: nat, debit: int, rows: nat)
    ensures start == 100
    ensures afterFirst == 0 && afterSecond == 0
    ensures entries == 1 && debit == -100
    ensures rows == 3
  {
    var store := new Store(map["h1" := Bay, "h2" := Plain], map[]);
    assert ParseRole("tourist") == Some(Tourist);
    var reg := store.Register(UserRegister("aida@mail.kz", "pw", "Aida", "tourist"), "u1", "hash", 1);
    start := store.users[0].user.ecocoinBalance;
    assert store.users[0].user.id == "u1";
    assert HasUser(store.users, "u1");
    assert "h1" in store.hotels && store.hotels["h1"].isPartner;
    assert CoinsTaken(100) == 100;
    var b1 := store.BookHotel(Caller("u1", Tourist), "h1", "2026-01-01", "2026-01-02", 2, "b1", "x1", 2);
    afterFirst := store.users[0].user.ecocoinBalance;
    assert store.users[0].user.id == "u1";
    assert HasUser(store.users, "u1");
    assert |store.transactions| == 1 && store.transactions[0].amount == -100;
    assert afterFirst == 0 && CoinsTaken(0) == 0;
    var b2 := store.BookHotel(Caller("u1", Tourist), "h1", "2026-02-01", "2026-02-02", 2, "b2", "x2", 3);
    assert "h2" in store.hotels && !store.hotels["h2"].isPartner;
    var b3 := store.BookHotel(Caller("u1", Tourist), "h2", "2026-03-01", "2026-03-02", 1, "b3", "x3", 4);
    afterSecond := store.users[0].user.ecocoinBalance;
    entries := |store.transactions|;
    debit := store.transactions[0].amount;
    rows := |store.bookings|;
  }

  /** A verifier reply that ends in the marker, such as "NOT VERIFIED",
      approves the submission and credits the reward. */
  method MarkedReplyApproves(prefix: string) returns (status: SubmissionStatus, balance: int)
    ensures status == SubmissionStatus.Approved
    ensures balance == 150
  {
    var store := new Store(map[], map["t1" := Recycle]);
    assert ParseRole("tourist") == Some(Tourist);
    var reg := store.Register(UserRegister("bolat@mail.kz", "pw", "Bolat", "tourist"), "u1", "hash", 1);
    assert store.users[0].user.id == "u1" && store.users[0].user.ecocoinBalance == 100;
    var sub := store.SubmitTask(Caller("u1", Tourist), TaskSubmissionCreate("t1", "img"), "s1", 2);
    assert store.submissions[0].id == "s1";
    assert "t1" in store.tasks && store.tasks["t1"].rewardCoins == 50;
    MarkerSuffixApproves(prefix);
    store.VerifyTaskSubmission("s1", "t1", "u1", Reply(prefix + VerifiedMarker), "x1", 3);
    status := store.submissions[0].status;
    balance := store.users[0].user.ecocoinBalance;
  }
}
