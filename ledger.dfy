/**
 * What ProcessTransaction guarantees, stated over the atomic step Apply and over a
 * sequence of calls applied one after another (each call is one unit of work, so
 * concurrent calls on one user behave like some such sequence).
 */
module Ledger {
  import opened Wrappers
  import opened Decimal
  import opened Model
  import opened Repository

  // ---------------------------------------------------------------------------
  // One call

  /**
   * A commit in doubt has the effect of the fault-free call; only its success is reported
   * as CommitFailed.
   */
  lemma CommitInDoubtIsCleanCall(db: Db, userId: uint64, req: TransactionRequest, sourceType: string)
    ensures var clean := Apply(db, userId, req, sourceType, NoFault);
      Apply(db, userId, req, sourceType, CommitInDoubt)
      == Step(clean.db, if clean.err.None? then Some(CommitFailed) else clean.err)
  {
    var r := Apply(db, userId, req, sourceType, CommitInDoubt);
    var clean := Apply(db, userId, req, sourceType, NoFault);
    if clean.err.None? {
      assert r == Step(clean.db, Some(CommitFailed));
    } else {
      assert r == clean;
    }
  }

  /** An amount that does not parse, or is not positive, is refused before the user is even looked up. */
  lemma InvalidAmountRejected(db: Db, userId: uint64, req: TransactionRequest, sourceType: string, fault: Fault)
    requires fault != FailBegin
    ensures ParseAmount(req.amount).None? ==>
      Apply(db, userId, req, sourceType, fault) == Step(db, Some(InvalidAmountFormat))
    ensures ParseAmount(req.amount).Some? && ParseAmount(req.amount).value <= 0.0 ==>
      Apply(db, userId, req, sourceType, fault) == Step(db, Some(AmountNotPositive))
  {
  }

  /** A call for a user that does not exist never succeeds and never adds a transaction row. */
  lemma UnknownUserRejected(db: Db, userId: uint64, req: TransactionRequest, sourceType: string, fault: Fault)
    requires userId !in db.users
    ensures Apply(db, userId, req, sourceType, fault).db == db
    ensures Apply(db, userId, req, sourceType, fault).err.Some?
    ensures PositiveAmount(req.amount) && fault != FailBegin && fault != FailLock && DriverAccepts(userId) ==>
      Apply(db, userId, req, sourceType, fault).err == Some(UserNotFound)
  {
  }

  /**
   * A user id of 2^63 or more cannot be passed to the lock query at all: the call reports
   * the lock failure, whether or not such a user exists, and changes nothing.
   */
  lemma UnrepresentableUserIdRejected(db: Db, userId: uint64, req: TransactionRequest, sourceType: string, fault: Fault)
    requires !DriverAccepts(userId)
    ensures Apply(db, userId, req, sourceType, fault).db == db
    ensures Apply(db, userId, req, sourceType, fault).err.Some?
    ensures PositiveAmount(req.amount) && fault != FailBegin ==>
      Apply(db, userId, req, sourceType, fault).err == Some(LockFailed)
  {
  }

  /**
   * A successful call changes the target user's balance to old + amount for "win" and
   * old - amount for every other state, changes no other balance, and appends exactly
   * one row describing the request.
   */
  lemma SuccessfulCall(db: Db, userId: uint64, req: TransactionRequest, sourceType: string, fault: Fault)
    ensures Apply(db, userId, req, sourceType, fault).err.None? ==>
      && fault == NoFault
      && ParseAmount(req.amount).Some? && ParseAmount(req.amount).value > 0.0
      && DriverAccepts(userId) && userId in db.users
      && FitsColumns(Transaction(userId, req.transactionId, sourceType, req.state, req.amount))
    ensures Apply(db, userId, req, sourceType, fault).err.None? ==>
      var after := Apply(db, userId, req, sourceType, fault).db;
      var amount := ParseAmount(req.amount).value;
      && after.users.Keys == db.users.Keys
      && after.users[userId] == (if req.state == "win" then db.users[userId] + amount else db.users[userId] - amount)
      && after.users[userId] >= 0.0 && BalanceFitsColumn(after.users[userId])
      && (forall v :: v in db.users && v != userId ==> after.users[v] == db.users[v])
      && after.transactions == db.transactions + [Transaction(userId, req.transactionId, sourceType, req.state, req.amount)]
      && req.transactionId !in TransactionIds(db.transactions)
  {
  }

  /**
   * Conversely, a call whose amount parses to a positive value, for an existing user, that
   * leaves a non-negative balance its column can hold, carries an unused id, and whose row
   * fits its columns, commits when the database does not fail.
   */
  lemma CommittingCall(db: Db, userId: uint64, req: TransactionRequest, sourceType: string, amount: real)
    ensures
      && ParseAmount(req.amount) == Some(amount) && amount > 0.0
      && DriverAccepts(userId) && userId in db.users && NewBalance(db.users[userId], amount, req.state) >= 0.0
      && BalanceFitsColumn(NewBalance(db.users[userId], amount, req.state))
      && req.transactionId !in TransactionIds(db.transactions)
      && FitsColumns(Transaction(userId, req.transactionId, sourceType, req.state, req.amount))
      ==>
      Apply(db, userId, req, sourceType, NoFault) == Step(
        Db(db.users[userId := NewBalance(db.users[userId], amount, req.state)],
           db.transactions + [Transaction(userId, req.transactionId, sourceType, req.state, req.amount)]),
        None)
  {
  }

  /** A balance that would become negative is refused and nothing is written. */
  lemma OverdraftRejected(db: Db, userId: uint64, req: TransactionRequest, sourceType: string, fault: Fault)
    requires fault != FailBegin && fault != FailLock
    ensures
      && PositiveAmount(req.amount) && DriverAccepts(userId) && userId in db.users
      && NewBalance(db.users[userId], ParseAmount(req.amount).value, req.state) < 0.0
      ==>
      Apply(db, userId, req, sourceType, fault) == Step(db, Some(InsufficientBalance))
  {
  }

  /**
   * A new balance too large for its column is refused by the UPDATE; nothing is written,
   * whatever the later steps would do.
   */
  lemma BalanceOverflowRejected(db: Db, userId: uint64, req: TransactionRequest, sourceType: string, fault: Fault)
    requires fault != FailBegin && fault != FailLock
    ensures
      && PositiveAmount(req.amount) && DriverAccepts(userId) && userId in db.users
      && !BalanceFitsColumn(NewBalance(db.users[userId], ParseAmount(req.amount).value, req.state))
      ==>
      Apply(db, userId, req, sourceType, fault) == Step(db, Some(UpdateFailed))
  {
  }

  /**
   * A transaction id that is already recorded is refused by the uniqueness constraint,
   * and the balance update issued before the insert is rolled back.
   */
  lemma DuplicateRejected(db: Db, userId: uint64, req: TransactionRequest, sourceType: string, fault: Fault)
    requires fault == NoFault || fault == FailCommit || fault == CommitInDoubt
    requires req.transactionId in TransactionIds(db.transactions)
    ensures
      && PositiveAmount(req.amount) && DriverAccepts(userId) && userId in db.users
      && NewBalance(db.users[userId], ParseAmount(req.amount).value, req.state) >= 0.0
      && BalanceFitsColumn(NewBalance(db.users[userId], ParseAmount(req.amount).value, req.state))
      && FitsColumns(Transaction(userId, req.transactionId, sourceType, req.state, req.amount))
      ==>
      Apply(db, userId, req, sourceType, fault) == Step(db, Some(DuplicateTransaction))
  {
  }

  /**
   * Only the unique-violation reply is a duplicate: an INSERT that fails for any other
   * reason (a lost connection, a timeout) is reported as the insert failure, also for a
   * recorded id, and the balance update is rolled back.
   */
  lemma InsertFailureIsNotDuplicate(db: Db, userId: uint64, req: TransactionRequest, sourceType: string)
    ensures Apply(db, userId, req, sourceType, FailInsert).err != Some(DuplicateTransaction)
    ensures Apply(db, userId, req, sourceType, FailInsert).db == db
    ensures
      && PositiveAmount(req.amount) && DriverAccepts(userId) && userId in db.users
      && NewBalance(db.users[userId], ParseAmount(req.amount).value, req.state) >= 0.0
      && BalanceFitsColumn(NewBalance(db.users[userId], ParseAmount(req.amount).value, req.state))
      ==>
      Apply(db, userId, req, sourceType, FailInsert) == Step(db, Some(InsertFailed))
  {
  }

  /**
   * A row the transactions table cannot hold (a transaction id, source type or state too
   * long for its column, or an amount too large) never commits; a call that reaches the
   * insert gets the insert error, not DuplicateTransaction even for a recorded id, and the
   * balance update is rolled back.
   */
  lemma UnstorableRowRejected(db: Db, userId: uint64, req: TransactionRequest, sourceType: string, fault: Fault)
    requires !FitsColumns(Transaction(userId, req.transactionId, sourceType, req.state, req.amount))
    ensures Apply(db, userId, req, sourceType, fault).err.Some?
    ensures Apply(db, userId, req, sourceType, fault).db == db
    ensures
      && fault != FailBegin && fault != FailLock && fault != FailUpdate
      && PositiveAmount(req.amount) && DriverAccepts(userId) && userId in db.users
      && NewBalance(db.users[userId], ParseAmount(req.amount).value, req.state) >= 0.0
      && BalanceFitsColumn(NewBalance(db.users[userId], ParseAmount(req.amount).value, req.state))
      ==>
      Apply(db, userId, req, sourceType, fault) == Step(db, Some(InsertFailed))
  {
  }

  /** Whatever else the request says, a recorded transaction id never changes the store again. */
  lemma RecordedIdIsNoOp(db: Db, userId: uint64, req: TransactionRequest, sourceType: string, fault: Fault)
    requires req.transactionId in TransactionIds(db.transactions)
    ensures Apply(db, userId, req, sourceType, fault).db == db
    ensures Apply(db, userId, req, sourceType, fault).err.Some?
  {
  }

  /**
   * The checks have a fixed precedence: a replayed debit that would now overdraw reports
   * InsufficientBalance, not DuplicateTransaction.
   */
  lemma ReplayedDebitReportsInsufficientBalance()
    ensures var db := Db(map[1 := 100.0], []);
      var req := TransactionRequest("lose", "60", "tx-1");
      var first := Apply(db, 1, req, "game", NoFault);
      && first == Step(Db(map[1 := 40.0], [Transaction(1, "tx-1", "game", "lose", "60")]), None)
      && Apply(first.db, 1, req, "game", NoFault) == Step(first.db, Some(InsufficientBalance))
  {
    assert "60"[..1] == "6" && "6"[..0] == [];
    assert IndexOf("60", '.') == 2;
    assert ParseAmount("60") == Some(60.0);
  }

  // ---------------------------------------------------------------------------
  // The ledger explains every balance

  /** The signed effect of a recorded row: +amount for "win", -amount otherwise. */
  function Signed(t: Transaction): real
  {
    match ParseAmount(t.amount)
    case Some(a) => if t.state == "win" then a else -a
    case None => 0.0
  }

  /** The sum of the signed effects of the rows of user u. */
  function Net(transactions: seq<Transaction>, u: uint64): real
  {
    if transactions == [] then 0.0
    else (if transactions[0].userId == u then Signed(transactions[0]) else 0.0) + Net(transactions[1..], u)
  }

  lemma {:induction false} NetAppend(transactions: seq<Transaction>, row: Transaction, u: uint64)
    ensures Net(transactions + [row], u) == Net(transactions, u) + (if row.userId == u then Signed(row) else 0.0)
  {
    if transactions != [] {
      assert (transactions + [row])[1..] == transactions[1..] + [row];
      NetAppend(transactions[1..], row, u);
    } else {
      assert ([row])[1..] == [];
    }
  }

  /** Every balance is its opening balance plus the signed amounts of that user's rows. */
  ghost predicate Reconciles(opening: map<uint64, real>, db: Db)
  {
    && db.users.Keys == opening.Keys
    && forall u :: u in db.users ==> db.users[u] == opening[u] + Net(db.transactions, u)
  }

  lemma ApplyReconciles(opening: map<uint64, real>, db: Db, userId: uint64, req: TransactionRequest, sourceType: string, fault: Fault)
    requires Reconciles(opening, db)
    ensures Reconciles(opening, Apply(db, userId, req, sourceType, fault).db)
  {
    var r := Apply(db, userId, req, sourceType, fault);
    FirstAttempt(db, userId, req, sourceType, fault);
    if r.db != db {
      SuccessfulCall(db, userId, req, sourceType, NoFault);
      var row := Transaction(userId, req.transactionId, sourceType, req.state, req.amount);
      assert r.db.transactions == db.transactions + [row];
      forall u | u in r.db.users ensures r.db.users[u] == opening[u] + Net(r.db.transactions, u) {
        NetAppend(db.transactions, row, u);
      }
    }
  }

  // ---------------------------------------------------------------------------
  // A sequence of calls

  datatype Call = Call(userId: uint64, req: TransactionRequest, sourceType: string, fault: Fault)

  function ApplyCall(db: Db, c: Call): Step
  {
    Apply(db, c.userId, c.req, c.sourceType, c.fault)
  }

  /** The store after the calls, applied in order. */
  function Run(db: Db, calls: seq<Call>): Db
    decreases |calls|
  {
    if calls == [] then db else Run(ApplyCall(db, calls[0]).db, calls[1..])
  }

  /**
   * Starting from a consistent store that the ledger explains, any sequence of calls keeps
   * balances non-negative, transaction ids unique, rows attached to users, and every
   * balance equal to its opening balance plus the user's recorded amounts.
   */
  lemma {:induction false} RunPreservesInvariants(opening: map<uint64, real>, db: Db, calls: seq<Call>)
    requires Consistent(db) && Reconciles(opening, db)
    ensures Consistent(Run(db, calls)) && Reconciles(opening, Run(db, calls))
    decreases |calls|
  {
    if calls != [] {
      var c := calls[0];
      ApplyPreservesConsistent(db, c.userId, c.req, c.sourceType, c.fault);
      ApplyReconciles(opening, db, c.userId, c.req, c.sourceType, c.fault);
      RunPreservesInvariants(opening, ApplyCall(db, c).db, calls[1..]);
    }
  }

  /** The seed store with no transactions is explained by its own balances. */
  lemma SeedReconciles()
    ensures Consistent(SeedDb()) && Reconciles(SeedDb().users, SeedDb())
  {
  }

  function AmountOf(s: string): real
  {
    match ParseAmount(s)
    case Some(a) => a
    case None => 0.0
  }

  function TotalAmount(calls: seq<Call>): real
  {
    if calls == [] then 0.0 else AmountOf(calls[0].req.amount) + TotalAmount(calls[1..])
  }

  predicate DistinctIds(calls: seq<Call>)
  {
    forall i, j :: 0 <= i < j < |calls| ==> calls[i].req.transactionId != calls[j].req.transactionId
  }

  /** A credit to user u with a positive amount, a fresh id that fits its column, and no database failure. */
  predicate CleanCredit(db: Db, c: Call, u: uint64)
  {
    && c.userId == u && DriverAccepts(u) && c.req.state == "win" && c.fault == NoFault
    && PositiveAmount(c.req.amount)
    && FitsColumns(Transaction(u, c.req.transactionId, c.sourceType, c.req.state, c.req.amount))
    && c.req.transactionId !in TransactionIds(db.transactions)
  }

  lemma {:induction false} TotalAmountNonNegative(calls: seq<Call>)
    requires forall k :: 0 <= k < |calls| ==> PositiveAmount(calls[k].req.amount)
    ensures TotalAmount(calls) >= 0.0
    decreases |calls|
  {
    if calls != [] {
      assert PositiveAmount(calls[0].req.amount);
      assert forall k :: 0 <= k < |calls| - 1 ==> calls[1..][k] == calls[k + 1];
      TotalAmountNonNegative(calls[1..]);
    }
  }

  /** One clean credit whose result the column can hold commits exactly its row. */
  lemma CleanCreditCommits(db: Db, c: Call, u: uint64)
    requires u in db.users && db.users[u] >= 0.0
    requires CleanCredit(db, c, u)
    requires BalanceFitsColumn(db.users[u] + AmountOf(c.req.amount))
    ensures var row := Transaction(u, c.req.transactionId, c.sourceType, c.req.state, c.req.amount);
      ApplyCall(db, c).db == Db(db.users[u := db.users[u] + AmountOf(c.req.amount)], db.transactions + [row])
  {
    var amount := AmountOf(c.req.amount);
    assert ParseAmount(c.req.amount) == Some(amount) && amount > 0.0;
    CommittingCall(db, u, c.req, c.sourceType, amount);
  }

  /**
   * Credits with distinct ids, whose sum the balance column can hold, are all applied, and
   * none is lost: the balance grows by their sum.
   */
  lemma {:induction false} CreditsAccumulate(db: Db, calls: seq<Call>, u: uint64)
    requires u in db.users && db.users[u] >= 0.0
    requires BalanceFitsColumn(db.users[u] + TotalAmount(calls))
    requires DistinctIds(calls)
    requires forall k :: 0 <= k < |calls| ==> CleanCredit(db, calls[k], u)
    ensures u in Run(db, calls).users
    ensures Run(db, calls).users[u] == db.users[u] + TotalAmount(calls)
    decreases |calls|
  {
    if calls != [] {
      var c := calls[0];
      var rest := calls[1..];
      var row := Transaction(u, c.req.transactionId, c.sourceType, c.req.state, c.req.amount);
      assert CleanCredit(db, c, u);
      forall k | 0 <= k < |rest| ensures PositiveAmount(rest[k].req.amount) {
        assert rest[k] == calls[k + 1];
      }
      TotalAmountNonNegative(rest);
      assert TotalAmount(calls) == AmountOf(c.req.amount) + TotalAmount(rest);
      CleanCreditCommits(db, c, u);
      var db1 := Db(db.users[u := db.users[u] + AmountOf(c.req.amount)], db.transactions + [row]);
      assert Run(db, calls) == Run(db1, rest);
      TransactionIdsAppend(db.transactions, row);
      forall k | 0 <= k < |rest| ensures CleanCredit(db1, rest[k], u) {
        assert rest[k] == calls[k + 1];
        assert calls[0].req.transactionId != calls[k + 1].req.transactionId;
      }
      CreditsAccumulate(db1, rest, u);
    }
  }

  /** The same request resubmitted, each time meeting its own database failure or none. */
  function Resubmissions(userId: uint64, req: TransactionRequest, sourceType: string, faults: seq<Fault>): (calls: seq<Call>)
    ensures |calls| == |faults|
  {
    seq(|faults|, k requires 0 <= k < |faults| => Call(userId, req, sourceType, faults[k]))
  }

  lemma {:induction false} RunRecordedIdIsNoOp(db: Db, userId: uint64, req: TransactionRequest, sourceType: string, faults: seq<Fault>)
    requires req.transactionId in TransactionIds(db.transactions)
    ensures Run(db, Resubmissions(userId, req, sourceType, faults)) == db
    decreases |faults|
  {
    var calls := Resubmissions(userId, req, sourceType, faults);
    if faults != [] {
      assert calls[1..] == Resubmissions(userId, req, sourceType, faults[1..]);
      RunRecordedIdIsNoOp(db, userId, req, sourceType, faults[1..]);
    }
  }

  /**
   * One attempt either changes nothing, or has the effect of the fault-free call, which
   * succeeds and records the id (with no fault, or with a commit in doubt).
   */
  lemma FirstAttempt(db: Db, userId: uint64, req: TransactionRequest, sourceType: string, fault: Fault)
    ensures var first := Apply(db, userId, req, sourceType, fault);
      var clean := Apply(db, userId, req, sourceType, NoFault);
      || first.db == db
      || (&& (fault == NoFault || fault == CommitInDoubt) && clean.err.None? && first.db == clean.db
          && req.transactionId in TransactionIds(first.db.transactions))
    ensures Apply(db, userId, req, sourceType, fault).err.None? ==> fault == NoFault
  {
    var first := Apply(db, userId, req, sourceType, fault);
    SuccessfulCall(db, userId, req, sourceType, fault);
    if first.db != db {
      ChangedStoreIsCommit(db, userId, req, sourceType, fault);
      FailedCallChangesNothing(db, userId, req, sourceType, fault);
      var row := Transaction(userId, req.transactionId, sourceType, req.state, req.amount);
      CommittingCall(db, userId, req, sourceType, ParseAmount(req.amount).value);
      TransactionIdsAppend(db.transactions, row);
    }
  }

  /**
   * Retrying is safe: however often one request is resubmitted and whichever attempts fail,
   * the store ends either unchanged or exactly as after one successful application.
   */
  lemma {:induction false} RetriesApplyAtMostOnce(db: Db, userId: uint64, req: TransactionRequest, sourceType: string, faults: seq<Fault>)
    ensures var final := Run(db, Resubmissions(userId, req, sourceType, faults));
      final == db || final == Apply(db, userId, req, sourceType, NoFault).db
    decreases |faults|
  {
    var calls := Resubmissions(userId, req, sourceType, faults);
    if faults != [] {
      assert calls[1..] == Resubmissions(userId, req, sourceType, faults[1..]);
      var first := Apply(db, userId, req, sourceType, faults[0]);
      assert calls[0] == Call(userId, req, sourceType, faults[0]);
      assert Run(db, calls) == Run(first.db, calls[1..]);
      FirstAttempt(db, userId, req, sourceType, faults[0]);
      if first.db != db {
        RunRecordedIdIsNoOp(first.db, userId, req, sourceType, faults[1..]);
      } else {
        RetriesApplyAtMostOnce(db, userId, req, sourceType, faults[1..]);
      }
    }
  }

  /**
   * And at least once: if one of the attempts meets no database failure, the store ends
   * exactly as after one fault-free application (which may itself be a refusal).
   */
  lemma {:induction false} RetryWithCleanAttemptApplies(db: Db, userId: uint64, req: TransactionRequest, sourceType: string, faults: seq<Fault>)
    requires NoFault in faults
    ensures Run(db, Resubmissions(userId, req, sourceType, faults)) == Apply(db, userId, req, sourceType, NoFault).db
    decreases |faults|
  {
    var calls := Resubmissions(userId, req, sourceType, faults);
    assert calls[1..] == Resubmissions(userId, req, sourceType, faults[1..]);
    var first := Apply(db, userId, req, sourceType, faults[0]);
    var clean := Apply(db, userId, req, sourceType, NoFault);
    assert calls[0] == Call(userId, req, sourceType, faults[0]);
    assert Run(db, calls) == Run(first.db, calls[1..]);
    FirstAttempt(db, userId, req, sourceType, faults[0]);
    if first.db != db {
      RunRecordedIdIsNoOp(first.db, userId, req, sourceType, faults[1..]);
    } else if faults[0] == NoFault {
      // the clean attempt changed nothing, and no later attempt can change more
      RetriesApplyAtMostOnce(db, userId, req, sourceType, faults[1..]);
    } else {
      assert NoFault in faults[1..];
      RetryWithCleanAttemptApplies(db, userId, req, sourceType, faults[1..]);
    }
  }
}
