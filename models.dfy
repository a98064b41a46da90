/** The record types of the backend, with the default field values the
    pydantic models declare. Identifiers produced by `uuid4()` and
    timestamps produced by the clock are supplied by the caller. */
module Models {
  import opened Common

  /** A document id (a uuid string in the backend). */
  type Id = string

  /** A `created_at` or `verified_at` reading. The backend stores ISO-8601 UTC
      strings from one clock; they order the same way as these readings. */
  type Timestamp = nat

  /** The three roles `UserRegister.role` admits. */
  datatype Role = Tourist | TaxiDriver | Admin

  function RoleName(role: Role): string
  {
    match role
    case Tourist => "tourist"
    case TaxiDriver => "taxi_driver"
    case Admin => "admin"
  }

  /** The `Literal["tourist", "taxi_driver", "admin"]` validation of a
      registration request's role. */
  function ParseRole(s: string): (r: Option<Role>)
    ensures r.Some? <==> (s == "tourist" || s == "taxi_driver" || s == "admin")
    ensures r.Some? ==> RoleName(r.value) == s
  {
    if s == "tourist" then Some(Tourist)
    else if s == "taxi_driver" then Some(TaxiDriver)
    else if s == "admin" then Some(Admin)
    else None
  }

  lemma RoleNameRoundTrip(role: Role)
    ensures ParseRole(RoleName(role)) == Some(role)
  {
  }

  datatype UserRegister = UserRegister(email: string, password: string, name: string, role: string)

  datatype UserLogin = UserLogin(email: string, password: string)

  datatype User = User(
    id: Id,
    email: string,
    name: string,
    role: Role,
    ecocoinBalance: int := 0,
    createdAt: Timestamp)

  /** A stored `users` document: the dumped `User` plus its password hash. */
  datatype UserDoc = UserDoc(user: User, passwordHash: string)

  /** The caller identified by a decoded bearer token. */
  datatype Caller = Caller(userId: Id, role: Role)

  datatype ReviewStatus = Pending | Approved | Rejected

  datatype Review = Review(
    id: Id,
    attractionId: Id,
    userId: Id,
    userName: string,
    rating: int,
    comment: string,
    status: ReviewStatus := ReviewStatus.Pending,
    createdAt: Timestamp)

  datatype ReviewCreate = ReviewCreate(attractionId: Id, rating: int, comment: string)

  datatype Hotel = Hotel(
    id: Id,
    regionId: Id,
    name: string,
    description: string,
    pricePerNight: int,
    isPartner: bool := false,
    imageUrl: string)

  datatype OrderStatus = Pending | Accepted

  datatype TaxiOrder = TaxiOrder(
    id: Id,
    userId: Id,
    driverId: Option<Id> := None,
    fromLocation: string,
    toLocation: string,
    status: OrderStatus := OrderStatus.Pending,
    createdAt: Timestamp)

  datatype TaxiOrderCreate = TaxiOrderCreate(fromLocation: string, toLocation: string)

  datatype Task = Task(
    id: Id,
    titleEn: string,
    descriptionEn: string,
    rewardCoins: int,
    kind: string,
    imageRequired: bool := true)

  /** The statuses a submission takes: the model default, the handler's
      initial value, the two verdicts and the failure marker. */
  datatype SubmissionStatus = Pending | Verifying | Approved | Rejected | Error

  datatype TaskSubmission = TaskSubmission(
    id: Id,
    userId: Id,
    taskId: Id,
    imageBase64: string,
    status: SubmissionStatus := SubmissionStatus.Pending,
    verifiedAt: Option<Timestamp> := None,
    createdAt: Timestamp)

  datatype TaskSubmissionCreate = TaskSubmissionCreate(taskId: Id, imageBase64: string)

  /** `type` of a ledger entry: "spent" for debits, "earned" for credits. */
  datatype TransactionKind = Spent | Earned

  datatype EcocoinTransaction = EcocoinTransaction(
    id: Id,
    userId: Id,
    amount: int,
    kind: TransactionKind,
    description: string,
    createdAt: Timestamp)

  /** A user built without a balance holds no coins. */
  lemma UserDefaultBalance(id: Id, email: string, name: string, role: Role, createdAt: Timestamp)
    ensures User(id, email, name, role, createdAt := createdAt).ecocoinBalance == 0
  {
  }

  /** A review built without a status is pending. */
  lemma ReviewDefaultStatus(id: Id, attractionId: Id, userId: Id, userName: string,
                            rating: int, comment: string, createdAt: Timestamp)
    ensures Review(id, attractionId, userId, userName, rating, comment, createdAt := createdAt).status
            == ReviewStatus.Pending
  {
  }

  /** The `Hotel` record's default: built without a partner flag, a hotel
      is not a partner. (`book_hotel` reads the stored document's flag
      directly, so this default does not apply there.) */
  lemma HotelDefaultNotPartner(id: Id, regionId: Id, name: string, description: string,
                               pricePerNight: int, imageUrl: string)
    ensures !Hotel(id, regionId, name, description, pricePerNight, imageUrl := imageUrl).isPartner
  {
  }

  /** A taxi order built without a driver or a status is pending and unassigned. */
  lemma TaxiOrderDefaults(id: Id, userId: Id, fromLocation: string, toLocation: string, createdAt: Timestamp)
    ensures var o := TaxiOrder(id, userId, fromLocation := fromLocation, toLocation := toLocation,
                               createdAt := createdAt);
            o.driverId == None && o.status == OrderStatus.Pending
  {
  }

  /** A submission built without a status is pending and not yet verified. */
  lemma TaskSubmissionDefaults(id: Id, userId: Id, taskId: Id, imageBase64: string, createdAt: Timestamp)
    ensures var s := TaskSubmission(id, userId, taskId, imageBase64, createdAt := createdAt);
            s.status == SubmissionStatus.Pending && s.verifiedAt == None
  {
  }
}
