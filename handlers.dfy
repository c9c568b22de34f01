/**
 * The HTTP handlers: the validation chain in front of ProcessTransaction, the mapping of
 * repository errors to statuses, and the balance query.
 */
module Handlers {
  import opened Wrappers
  import opened Decimal
  import opened Model
  import opened Helpers
  import opened Repository
  import opened Ledger

  const StatusOK: int := 200
  const StatusBadRequest: int := 400
  const StatusNotFound: int := 404
  const StatusInternalServerError: int := 500

  /** The JSON written back: {"error": …}, {"message": …}, or the balance of a user. */
  datatype Payload = ErrorMessage(error: string) | Message(message: string) | Balance(userId: uint64, balance: real)

  datatype Response = Response(status: int, payload: Payload)

  function BadRequest(message: string): Response
  {
    Response(StatusBadRequest, ErrorMessage(message))
  }

  /** The request body as the handler sees it once it has tried to read and decode it. */
  datatype RequestBody = ReadFailed | InvalidJson | Decoded(req: TransactionRequest)

  /** A request that passed every check, ready for the service. */
  datatype Validated = Validated(userId: uint64, sourceType: string, req: TransactionRequest)

  /**
   * The checks of createTransaction, in order: the user id, the Source-Type header (the
   * empty string stands for a missing header), the body, the state, the amount and the
   * transaction id. The first that fails decides the 400 response.
   */
  function ValidateTransaction(rawUserId: string, sourceType: string, body: RequestBody): (r: Result<Validated, Response>)
    ensures r.Success? <==>
      && ParseUserID(rawUserId).err.None?
      && IsValidSourceType(sourceType)
      && body.Decoded?
      && (body.req.state == "win" || body.req.state == "lose")
      && body.req.amount != ""
      && body.req.transactionId != ""
    ensures r.Success? ==> r.value == Validated(ParseUserID(rawUserId).id, sourceType, body.req)
    ensures r.Failure? ==> r.error.status == StatusBadRequest && r.error.payload.ErrorMessage?
    ensures ParseUserID(rawUserId).err.Some? ==> r == Failure(BadRequest("invalid user id"))
    ensures ParseUserID(rawUserId).err.None? && sourceType == "" ==>
      r == Failure(BadRequest("Source-Type header is required"))
    ensures ParseUserID(rawUserId).err.None? && sourceType != "" && !IsValidSourceType(sourceType) ==>
      r == Failure(BadRequest("invalid Source-Type"))
  {
    var parsed := ParseUserID(rawUserId);
    if parsed.err.Some? then Failure(BadRequest("invalid user id"))
    else if sourceType == "" then Failure(BadRequest("Source-Type header is required"))
    else if !IsValidSourceType(sourceType) then Failure(BadRequest("invalid Source-Type"))
    else match body
      case ReadFailed => Failure(BadRequest("failed to read request body"))
      case InvalidJson => Failure(BadRequest("invalid JSON"))
      case Decoded(req) =>
        if req.state != "win" && req.state != "lose" then Failure(BadRequest("state must be 'win' or 'lose'"))
        else if req.amount == "" then Failure(BadRequest("amount is required"))
        else if req.transactionId == "" then Failure(BadRequest("transactionId is required"))
        else Success(Validated(parsed.id, sourceType, req))
  }

  /**
   * The response to the service's result: the three sentinels get their own status (a
   * duplicate counts as success), any other error is a 500.
   */
  function TransactionOutcome(err: Option<RepoError>): (r: Response)
    ensures r.status == StatusOK <==> err.None? || err == Some(DuplicateTransaction)
    ensures r.status == StatusNotFound <==> err == Some(UserNotFound)
    ensures r.status == StatusBadRequest <==> err == Some(InsufficientBalance)
    ensures r.status == StatusInternalServerError <==> err.Some? && !err.value.IsSentinel()
    ensures err.None? ==> r == Response(StatusOK, Message("transaction processed successfully"))
    ensures err == Some(DuplicateTransaction) ==> r == Response(StatusOK, Message("transaction already processed"))
    ensures err == Some(UserNotFound) ==> r == Response(StatusNotFound, ErrorMessage("user not found"))
    ensures err == Some(InsufficientBalance) ==> r == Response(StatusBadRequest, ErrorMessage("insufficient balance"))
    ensures err.Some? && !err.value.IsSentinel() ==>
      r == Response(StatusInternalServerError, ErrorMessage("internal server error"))
  {
    match err
    case None => Response(StatusOK, Message("transaction processed successfully"))
    case Some(UserNotFound) => Response(StatusNotFound, ErrorMessage("user not found"))
    case Some(InsufficientBalance) => Response(StatusBadRequest, ErrorMessage("insufficient balance"))
    case Some(DuplicateTransaction) => Response(StatusOK, Message("transaction already processed"))
    case Some(_) => Response(StatusInternalServerError, ErrorMessage("internal server error"))
  }

  /** The response to a balance lookup: the balance, 404 for a missing user, 500 otherwise. */
  function BalanceOutcome(userId: uint64, lookup: Result<real, RepoError>): (r: Response)
    ensures r.status == StatusOK <==> lookup.Success?
    ensures lookup.Success? ==> r.payload == Balance(userId, lookup.value)
    ensures r.status == StatusNotFound <==> lookup == Failure(UserNotFound)
    ensures r.status == StatusInternalServerError <==> lookup.Failure? && lookup.error != UserNotFound
  {
    match lookup
    case Success(balance) => Response(StatusOK, Balance(userId, balance))
    case Failure(UserNotFound) => Response(StatusNotFound, ErrorMessage("user not found"))
    case Failure(_) => Response(StatusInternalServerError, ErrorMessage("internal server error"))
  }

  /** POST /user/{userId}/transaction on a given store: the store afterwards and the response. */
  function HandleCreate(db: Db, rawUserId: string, sourceType: string, body: RequestBody, fault: Fault): (Db, Response)
  {
    match ValidateTransaction(rawUserId, sourceType, body)
    case Failure(response) => (db, response)
    case Success(v) =>
      var step := Apply(db, v.userId, v.req, v.sourceType, fault);
      (step.db, TransactionOutcome(step.err))
  }

  /** GET /user/{userId}/balance on a given store. */
  function HandleBalance(db: Db, rawUserId: string, queryFails: bool): Response
  {
    var parsed := ParseUserID(rawUserId);
    if parsed.err.Some? then BadRequest("invalid user id")
    else BalanceOutcome(parsed.id, BalanceOf(db, parsed.id, queryFails))
  }

  /** createTransaction: validate, call the service only for a valid request, write the outcome. */
  method CreateTransaction(db: Database, rawUserId: string, sourceType: string, body: RequestBody, fault: Fault)
    returns (response: Response)
    requires db.Valid()
    modifies db
    ensures db.Valid()
    ensures (db.State(), response) == HandleCreate(old(db.State()), rawUserId, sourceType, body, fault)
  {
    var checked := ValidateTransaction(rawUserId, sourceType, body);
    if checked.Failure? {
      return checked.error;
    }
    var v := checked.value;
    var err := db.ProcessTransaction(v.userId, v.req, v.sourceType, fault);
    response := TransactionOutcome(err);
  }

  /** getUserBalance; it changes nothing. */
  method GetUserBalance(db: Database, rawUserId: string, queryFails: bool) returns (response: Response)
    ensures response == HandleBalance(db.State(), rawUserId, queryFails)
  {
    var parsed := ParseUserID(rawUserId);
    if parsed.err.Some? {
      return BadRequest("invalid user id");
    }
    var lookup := db.GetBalance(parsed.id, queryFails);
    response := BalanceOutcome(parsed.id, lookup);
  }

  // ---------------------------------------------------------------------------
  // End-to-end properties

  /** A request refused by the checks is answered 400 and the service is never reached. */
  lemma RejectedRequestLeavesStore(db: Db, rawUserId: string, sourceType: string, body: RequestBody, fault: Fault)
    requires ValidateTransaction(rawUserId, sourceType, body).Failure?
    ensures HandleCreate(db, rawUserId, sourceType, body, fault).0 == db
    ensures HandleCreate(db, rawUserId, sourceType, body, fault).1.status == StatusBadRequest
  {
  }

  /**
   * An amount that is not a positive decimal passes the handler's non-empty check and is
   * refused by the repository with an error that is no sentinel: the client sees a 500.
   */
  lemma BadAmountIsServerError(db: Db, rawUserId: string, sourceType: string, req: TransactionRequest, fault: Fault)
    requires ValidateTransaction(rawUserId, sourceType, Decoded(req)).Success?
    requires !PositiveAmount(req.amount)
    ensures HandleCreate(db, rawUserId, sourceType, Decoded(req), fault)
         == (db, Response(StatusInternalServerError, ErrorMessage("internal server error")))
  {
  }

  /**
   * The handler checks only that the transaction id is non-empty: an id too long for its
   * column, or one holding U+0000, passes validation and is never applied. Once the request
   * reaches the insert, the insert error is no sentinel and the client sees a 500.
   */
  lemma UnstorableTransactionIdIsServerError(db: Db, rawUserId: string, sourceType: string, req: TransactionRequest, fault: Fault)
    requires ValidateTransaction(rawUserId, sourceType, Decoded(req)).Success?
    requires |req.transactionId| > TRANSACTION_ID_WIDTH || !NoNul(req.transactionId)
    ensures HandleCreate(db, rawUserId, sourceType, Decoded(req), fault).0 == db
    ensures HandleCreate(db, rawUserId, sourceType, Decoded(req), fault).1.status != StatusOK
    ensures var userId := ValidateTransaction(rawUserId, sourceType, Decoded(req)).value.userId;
      && fault != FailBegin && fault != FailLock && fault != FailUpdate
      && PositiveAmount(req.amount) && userId in db.users
      && NewBalance(db.users[userId], ParseAmount(req.amount).value, req.state) >= 0.0
      ==>
      HandleCreate(db, rawUserId, sourceType, Decoded(req), fault).1
      == Response(StatusInternalServerError, ErrorMessage("internal server error"))
  {
  }

  /**
   * Resubmitting a request that was processed successfully changes nothing. Without a
   * database failure it is answered 200 "transaction already processed", unless it is a
   * debit that the current balance no longer covers (400), or a credit that would take the
   * balance beyond its column (500), because both balance checks precede the insert.
   */
  lemma ReplayThroughHandler(db: Db, rawUserId: string, sourceType: string, req: TransactionRequest, f1: Fault, f2: Fault)
    ensures (HandleCreate(db, rawUserId, sourceType, Decoded(req), f1).1
             == Response(StatusOK, Message("transaction processed successfully"))) ==>
      var first := HandleCreate(db, rawUserId, sourceType, Decoded(req), f1).0;
      var second := HandleCreate(first, rawUserId, sourceType, Decoded(req), f2);
      && second.0 == first
      && (f2 == NoFault && req.state != "win" ==>
            second.1 == Response(StatusOK, Message("transaction already processed"))
            || second.1 == Response(StatusBadRequest, ErrorMessage("insufficient balance")))
      && (f2 == NoFault && req.state == "win" ==>
            second.1 == Response(StatusOK, Message("transaction already processed"))
            || second.1 == Response(StatusInternalServerError, ErrorMessage("internal server error")))
      && (var v := ValidateTransaction(rawUserId, sourceType, Decoded(req));
          f2 == NoFault && req.state == "win" && v.Success? && v.value.userId in first.users
          && ParseAmount(req.amount).Some?
          && BalanceFitsColumn(first.users[v.value.userId] + ParseAmount(req.amount).value) ==>
            second.1 == Response(StatusOK, Message("transaction already processed")))
  {
    if HandleCreate(db, rawUserId, sourceType, Decoded(req), f1).1
       == Response(StatusOK, Message("transaction processed successfully")) {
      var v := ValidateTransaction(rawUserId, sourceType, Decoded(req)).value;
      var step := Apply(db, v.userId, req, sourceType, f1);
      assert step.err.None?;
      var row := Transaction(v.userId, req.transactionId, sourceType, req.state, req.amount);
      TransactionIdsAppend(db.transactions, row);
      assert req.transactionId in TransactionIds(step.db.transactions);
    }
  }

  /** The seeded store after user 1 was credited 25.50 under id "tx-1". */
  function CreditedDb(credit: string): Db
  {
    Db(map[1 := 125.5, 2 := 50.0, 3 := 75.0], [Transaction(1, "tx-1", "game", "win", credit)])
  }

  lemma UserOneParses()
    ensures ParseUserID("1") == ParsedUserId(1, None)
  {
    assert "1"[..0] == [];
  }

  /** The credit of the scenario passes every check of the fault-free call on the seeded store. */
  lemma ScenarioCreditPasses(credit: string)
    ensures var db := SeedDb();
      var row := Transaction(1, "tx-1", "game", "win", credit);
      ParseAmount(credit) == Some(25.5) ==>
        && DriverAccepts(1) && 1 in db.users && NewBalance(db.users[1], 25.5, "win") == 125.5
        && BalanceFitsColumn(125.5) && "tx-1" !in TransactionIds(db.transactions) && FitsColumns(row)
  {
    var row := Transaction(1, "tx-1", "game", "win", credit);
    assert |row.transactionId| == 4 && |row.sourceType| == 4 && |row.state| == 3;
    assert NoNul("tx-1") && NoNul("game") && NoNul("win");
  }

  lemma ScenarioCredit(credit: string)
    ensures ParseAmount(credit) == Some(25.5) ==>
      Apply(SeedDb(), 1, TransactionRequest("win", credit, "tx-1"), "game", NoFault) == Step(CreditedDb(credit), None)
  {
    if ParseAmount(credit) == Some(25.5) {
      var db := SeedDb();
      var row := Transaction(1, "tx-1", "game", "win", credit);
      ScenarioCreditPasses(credit);
      CommittingCall(db, 1, TransactionRequest("win", credit, "tx-1"), "game", 25.5);
      ScenarioCreditedDb(credit);
    }
  }

  lemma ScenarioCreditedDb(credit: string)
    ensures Db(SeedDb().users[1 := 125.5], SeedDb().transactions + [Transaction(1, "tx-1", "game", "win", credit)])
         == CreditedDb(credit)
  {
  }

  lemma ScenarioReplay(credit: string)
    ensures ParseAmount(credit) == Some(25.5) ==>
      Apply(CreditedDb(credit), 1, TransactionRequest("win", credit, "tx-1"), "game", NoFault)
      == Step(CreditedDb(credit), Some(DuplicateTransaction))
  {
    assert "tx-1" in TransactionIds(CreditedDb(credit).transactions) by {
      assert CreditedDb(credit).transactions[0] in CreditedDb(credit).transactions;
    }
  }

  lemma ScenarioValid(amount: string, state: string, id: string)
    ensures amount != [] && id != [] && (state == "win" || state == "lose") ==>
      ValidateTransaction("1", "game", Decoded(TransactionRequest(state, amount, id)))
      == Success(Validated(1, "game", TransactionRequest(state, amount, id)))
  {
    UserOneParses();
  }

  /**
   * On the seeded store: a credit of 25.50 to user 1 gives 125.50; the same id again is
   * "already processed" and changes nothing; a debit of 500.00 is then refused. The amounts
   * may be spelled in any way that parses to those values, "25.50" and "500.00" among them
   * (FormatCents(2550) and FormatCents(50000), by ParseFormatCents).
   */
  lemma SeedScenario(credit: string, debit: string)
    ensures ParseAmount(credit) == Some(25.5) && ParseAmount(debit) == Some(500.0) ==>
      var creditBody := Decoded(TransactionRequest("win", credit, "tx-1"));
      var debitBody := Decoded(TransactionRequest("lose", debit, "tx-2"));
      && HandleCreate(SeedDb(), "1", "game", creditBody, NoFault)
         == (CreditedDb(credit), Response(StatusOK, Message("transaction processed successfully")))
      && HandleCreate(CreditedDb(credit), "1", "game", creditBody, NoFault)
         == (CreditedDb(credit), Response(StatusOK, Message("transaction already processed")))
      && HandleCreate(CreditedDb(credit), "1", "game", debitBody, NoFault)
         == (CreditedDb(credit), Response(StatusBadRequest, ErrorMessage("insufficient balance")))
  {
    if ParseAmount(credit) == Some(25.5) && ParseAmount(debit) == Some(500.0) {
      assert credit != [] && debit != [];
      ScenarioValid(credit, "win", "tx-1");
      ScenarioValid(debit, "lose", "tx-2");
      ScenarioCredit(credit);
      ScenarioReplay(credit);
    }
  }

  lemma CreditSpelling()
    ensures FormatCents(2550) == "25.50"
  {
    assert FormatNat(25) == "25";
  }

  lemma DebitSpelling()
    ensures FormatCents(50000) == "500.00"
  {
    assert FormatNat(500) == "500";
  }

  /** The amounts as a client writes them, "25.50" and "500.00", are spellings SeedScenario covers. */
  lemma SeedScenarioAmounts()
    ensures ParseAmount("25.50") == Some(25.5)
    ensures ParseAmount("500.00") == Some(500.0)
  {
    CreditSpelling();
    ParseFormatCents(2550);
    DebitSpelling();
    ParseFormatCents(50000);
  }
}
