/**
 * The wallet store and TransactionRepository.ProcessTransaction: one atomic unit of work
 * that validates the amount, locks the user, computes the new balance, writes it and
 * records the transaction, or changes nothing at all.
 */
module Repository {
  import opened Wrappers
  import opened Decimal
  import opened Model

  /** What ProcessTransaction can return besides nil. */
  datatype RepoError =
    // the sentinel errors the handlers test for
    | UserNotFound
    | InsufficientBalance
    | DuplicateTransaction
    // errors built with fmt.Errorf, which match no sentinel
    | InvalidAmountFormat
    | AmountNotPositive
    | BeginFailed
    | LockFailed
    | UpdateFailed
    | InsertFailed
    | CommitFailed
    // a balance query that fails for any reason but a missing user
    | QueryFailed
  {
    predicate IsSentinel() {
      UserNotFound? || InsufficientBalance? || DuplicateTransaction?
    }
  }

  /**
   * A failure of the database itself at one of the steps of the unit of work (a lost
   * connection, say). It is chosen by the environment, not by the request. FailCommit is a
   * commit the server rolled back; CommitInDoubt is a commit the server carried out whose
   * acknowledgement never reached the client, so tx.Commit reports an error although the
   * changes are durable.
   */
  datatype Fault = NoFault | FailBegin | FailLock | FailUpdate | FailInsert | FailCommit | CommitInDoubt

  /** The committed contents of the two tables: user balances, and transaction rows in insertion order. */
  datatype Db = Db(users: map<uint64, real>, transactions: seq<Transaction>)

  /** The store after one call, and the call's error (None for Go's nil). */
  datatype Step = Step(db: Db, err: Option<RepoError>)

  /** The widths of the text columns of the transactions table. */
  const TRANSACTION_ID_WIDTH := 255
  const SOURCE_TYPE_WIDTH := 50
  const STATE_WIDTH := 10

  /**
   * database/sql converts a uint64 argument only below 2^63 (the range of PostgreSQL's
   * bigint); a larger user id makes every query that passes it fail before it reaches the
   * server, with an error that is not sql.ErrNoRows.
   */
  const BIGINT_LIMIT: int := 0x8000_0000_0000_0000

  predicate DriverAccepts(userId: uint64)
  {
    userId < BIGINT_LIMIT
  }

  /** A NUMERIC(20,2) column holds magnitudes below 10^18 once rounded to two decimals. */
  const NUMERIC_LIMIT: real := 1_000_000_000_000_000_000.0

  /**
   * Whether the UPDATE can store a new (non-negative) balance. RatToDecimal writes the
   * nearest float64 with two decimals; float64 values just below 10^18 are 128 apart, and a
   * tie goes to the even 10^18, so every balance from 10^18 - 64 up is written as 10^18 or
   * more and refused with a numeric overflow.
   */
  predicate BalanceFitsColumn(balance: real)
  {
    balance < NUMERIC_LIMIT - 64.0
  }

  /** PostgreSQL's text types cannot hold the character U+0000 (it refuses one with code 22021). */
  predicate NoNul(s: string)
  {
    '\0' !in s
  }

  /**
   * Whether the INSERT can store a row. The text values must contain no U+0000 (otherwise
   * the error is an invalid byte sequence, code 22021) and fit their VARCHAR columns
   * (otherwise a string truncation, code 22001), and the amount, which PostgreSQL rounds
   * half away from zero to two decimals, must stay below 10^18 (otherwise a numeric
   * overflow, code 22003). None is the unique-violation code 23505, and all arise while
   * the row is built, before the unique index is probed.
   */
  predicate FitsColumns(t: Transaction)
  {
    && NoNul(t.transactionId) && NoNul(t.sourceType) && NoNul(t.state)
    && |t.transactionId| <= TRANSACTION_ID_WIDTH && |t.sourceType| <= SOURCE_TYPE_WIDTH && |t.state| <= STATE_WIDTH
    && match ParseAmount(t.amount)
       case Some(a) => a < NUMERIC_LIMIT - 0.005
       case None => false
  }

  function TransactionIds(transactions: seq<Transaction>): set<string>
  {
    set t | t in transactions :: t.transactionId
  }

  predicate PositiveAmount(s: string)
  {
    match ParseAmount(s)
    case Some(a) => a > 0.0
    case None => false
  }

  /**
   * The constraints of the schema (a non-negative balance, a unique transaction_id, a
   * transaction row that references an existing user, values that fit their column types)
   * and the one the repository keeps itself: every recorded amount is a positive
   * decimal.
   */
  ghost predicate Consistent(db: Db)
  {
    && (forall u :: u in db.users ==> db.users[u] >= 0.0 && BalanceFitsColumn(db.users[u]))
    && (forall i, j :: 0 <= i < j < |db.transactions| ==>
          db.transactions[i].transactionId != db.transactions[j].transactionId)
    && (forall i :: 0 <= i < |db.transactions| ==> db.transactions[i].userId in db.users)
    && (forall i :: 0 <= i < |db.transactions| ==> PositiveAmount(db.transactions[i].amount))
    && (forall i :: 0 <= i < |db.transactions| ==> FitsColumns(db.transactions[i]))
  }

  /** "win" credits the amount; every other state debits it. */
  function NewBalance(current: real, amount: real, state: string): real
  {
    if state == "win" then current + amount else current - amount
  }

  /**
   * ProcessTransaction as one atomic step. The checks come in the order ProcessTransaction
   * performs them; every error leaves the committed store as it was, because the deferred
   * rollback undoes the balance update whenever the insert or the commit fails, except a
   * commit in doubt, which reports CommitFailed over the committed store.
   */
  function Apply(db: Db, userId: uint64, req: TransactionRequest, sourceType: string, fault: Fault): Step
  {
    if fault == FailBegin then Step(db, Some(BeginFailed))
    else match ParseAmount(req.amount)
      case None => Step(db, Some(InvalidAmountFormat))
      case Some(amount) =>
        if amount <= 0.0 then Step(db, Some(AmountNotPositive))
        else if fault == FailLock || !DriverAccepts(userId) then Step(db, Some(LockFailed))
        else if userId !in db.users then Step(db, Some(UserNotFound))
        else
          var balance := NewBalance(db.users[userId], amount, req.state);
          if balance < 0.0 then Step(db, Some(InsufficientBalance))
          else if fault == FailUpdate || !BalanceFitsColumn(balance) then Step(db, Some(UpdateFailed))
          else
            var row := Transaction(userId, req.transactionId, sourceType, req.state, req.amount);
            if !FitsColumns(row) then Step(db, Some(InsertFailed))
            else if fault == FailInsert then Step(db, Some(InsertFailed))
            else if req.transactionId in TransactionIds(db.transactions) then Step(db, Some(DuplicateTransaction))
            else if fault == FailCommit then Step(db, Some(CommitFailed))
            else
              var committed := Db(db.users[userId := balance], db.transactions + [row]);
              if fault == CommitInDoubt then Step(committed, Some(CommitFailed)) else Step(committed, None)
  }

  lemma TransactionIdsAppend(transactions: seq<Transaction>, row: Transaction)
    ensures TransactionIds(transactions + [row]) == TransactionIds(transactions) + {row.transactionId}
  {
    var s := transactions + [row];
    forall id | id in TransactionIds(s) ensures id in TransactionIds(transactions) + {row.transactionId} {
      var t :| t in s && t.transactionId == id;
      var k :| 0 <= k < |s| && s[k] == t;
      if k < |transactions| {
        assert transactions[k] == t;
      }
    }
    forall id | id in TransactionIds(transactions) + {row.transactionId} ensures id in TransactionIds(s) {
      if id == row.transactionId {
        assert s[|transactions|] == row;
      } else {
        var t :| t in transactions && t.transactionId == id;
        var k :| 0 <= k < |transactions| && transactions[k] == t;
        assert s[k] == t;
      }
    }
  }

  /**
   * All or nothing: a call that returns an error leaves both tables exactly as they were,
   * unless the error is a commit in doubt: then the store may have changed although the
   * caller saw an error.
   */
  lemma FailedCallChangesNothing(db: Db, userId: uint64, req: TransactionRequest, sourceType: string, fault: Fault)
    ensures Apply(db, userId, req, sourceType, fault).err.Some? && fault != CommitInDoubt ==>
      Apply(db, userId, req, sourceType, fault).db == db
  {
  }

  /** A call that changes the store has passed every check and commits exactly its row. */
  lemma ChangedStoreIsCommit(db: Db, userId: uint64, req: TransactionRequest, sourceType: string, fault: Fault)
    ensures var r := Apply(db, userId, req, sourceType, fault);
      r.db != db ==>
        && ParseAmount(req.amount).Some? && ParseAmount(req.amount).value > 0.0
        && DriverAccepts(userId) && userId in db.users
        && var balance := NewBalance(db.users[userId], ParseAmount(req.amount).value, req.state);
           var row := Transaction(userId, req.transactionId, sourceType, req.state, req.amount);
           && balance >= 0.0 && BalanceFitsColumn(balance) && FitsColumns(row)
           && req.transactionId !in TransactionIds(db.transactions)
           && r.db == Db(db.users[userId := balance], db.transactions + [row])
  {
  }

  /** Every call, successful or not, keeps the store consistent. */
  lemma ApplyPreservesConsistent(db: Db, userId: uint64, req: TransactionRequest, sourceType: string, fault: Fault)
    requires Consistent(db)
    ensures Consistent(Apply(db, userId, req, sourceType, fault).db)
  {
    var r := Apply(db, userId, req, sourceType, fault);
    ChangedStoreIsCommit(db, userId, req, sourceType, fault);
    if r.db != db {
      var amount := ParseAmount(req.amount).value;
      var balance := NewBalance(db.users[userId], amount, req.state);
      var row := Transaction(userId, req.transactionId, sourceType, req.state, req.amount);
      var ts := db.transactions + [row];
      assert r.db == Db(db.users[userId := balance], ts);
      assert PositiveAmount(row.amount);
      forall i | 0 <= i < |db.transactions| ensures db.transactions[i].transactionId != row.transactionId {
        assert db.transactions[i] in db.transactions;
      }
      forall i | 0 <= i < |ts| ensures PositiveAmount(ts[i].amount) && FitsColumns(ts[i]) {
        if i < |db.transactions| {
          assert ts[i] == db.transactions[i];
        }
      }
      assert forall i :: 0 <= i < |ts| - 1 ==> ts[i] == db.transactions[i];
      assert ts[|ts| - 1] == row;
    }
  }

  /** The seed rows: users 1, 2 and 3 with 100.00, 50.00 and 75.00, and no transactions. */
  function SeedDb(): (db: Db)
    ensures Consistent(db)
  {
    Db(map[1 := 100.0, 2 := 50.0, 3 := 75.0], [])
  }

  /** The result of a balance query, as the handler receives it. */
  function BalanceOf(db: Db, userId: uint64, queryFails: bool): (r: Result<real, RepoError>)
    ensures r.Success? <==> !queryFails && userId in db.users
    ensures r.Success? ==> r.value == db.users[userId]
    ensures r.Failure? ==> (r.error == UserNotFound <==> !queryFails)
  {
    if queryFails then Failure(QueryFailed)
    else if userId in db.users then Success(db.users[userId])
    else Failure(UserNotFound)
  }

  /** The database the repositories share: the users and transactions tables. */
  class Database {
    var users: map<uint64, real>
    var transactions: seq<Transaction>

    function State(): Db
      reads this
    {
      Db(users, transactions)
    }

    ghost predicate Valid()
      reads this
    {
      Consistent(State())
    }

    /** A fresh database after the migrations have run (on an existing one they keep its rows). */
    constructor Seeded()
      ensures Valid() && State() == SeedDb()
    {
      users := map[1 := 100.0, 2 := 50.0, 3 := 75.0];
      transactions := [];
    }

    /**
     * TransactionRepository.ProcessTransaction. The tables are changed step by step; on
     * every error after a change the committed contents are put back, as the deferred
     * tx.Rollback does, except when the commit itself went through unacknowledged.
     */
    method ProcessTransaction(userId: uint64, req: TransactionRequest, sourceType: string, fault: Fault)
      returns (err: Option<RepoError>)
      requires Valid()
      modifies this
      ensures Valid()
      ensures err.Some? && fault != CommitInDoubt ==> State() == old(State())
      ensures State() == Apply(old(State()), userId, req, sourceType, fault).db
      ensures err == Apply(old(State()), userId, req, sourceType, fault).err
    {
      ApplyPreservesConsistent(State(), userId, req, sourceType, fault);
      FailedCallChangesNothing(State(), userId, req, sourceType, fault);
      if fault == FailBegin {
        return Some(BeginFailed);
      }
      // what a rollback restores
      var committedUsers, committedTransactions := users, transactions;

      var parsed := ParseAmount(req.amount);
      if parsed.None? {
        return Some(InvalidAmountFormat);
      }
      var amount := parsed.value;
      if amount <= 0.0 {
        return Some(AmountNotPositive);
      }

      // SELECT balance ... FOR UPDATE
      if fault == FailLock || !DriverAccepts(userId) {
        return Some(LockFailed);
      }
      if userId !in users {
        return Some(UserNotFound);
      }
      var current := users[userId];

      var balance: real;
      if req.state == "win" {
        balance := current + amount;
      } else {
        balance := current - amount;
      }
      if balance < 0.0 {
        return Some(InsufficientBalance);
      }

      // UPDATE users SET balance
      if fault == FailUpdate || !BalanceFitsColumn(balance) {
        return Some(UpdateFailed);
      }
      users := users[userId := balance];

      // INSERT INTO transactions: the column types, a failure of the statement itself, then
      // the UNIQUE constraint on transaction_id (only a 23505 reply is a duplicate)
      var row := Transaction(userId, req.transactionId, sourceType, req.state, req.amount);
      if !FitsColumns(row) {
        users, transactions := committedUsers, committedTransactions;
        return Some(InsertFailed);
      }
      if fault == FailInsert {
        users, transactions := committedUsers, committedTransactions;
        return Some(InsertFailed);
      }
      if req.transactionId in TransactionIds(transactions) {
        users, transactions := committedUsers, committedTransactions;
        return Some(DuplicateTransaction);
      }
      transactions := transactions + [row];

      if fault == FailCommit {
        users, transactions := committedUsers, committedTransactions;
        return Some(CommitFailed);
      }
      if fault == CommitInDoubt {
        return Some(CommitFailed);
      }
      return None;
    }

    /** The balance lookup behind UserService.GetBalance; it changes nothing. */
    method GetBalance(userId: uint64, queryFails: bool) returns (r: Result<real, RepoError>)
      ensures r == BalanceOf(State(), userId, queryFails)
    {
      if queryFails {
        return Failure(QueryFailed);
      }
      if userId !in users {
        return Failure(UserNotFound);
      }
      return Success(users[userId]);
    }
  }
}
