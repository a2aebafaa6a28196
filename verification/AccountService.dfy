/** The legacy integer service behind `/event`: whole units, its own overdraft limit, no postings. */
module AccountService {
  import opened Prelude
  import opened Errors
  import opened Tables
  import opened TextOrder
  import opened AccountRepository

  const OVERDRAFT_LIMIT := -1000

  /** `int(balance)`: whole units of a balance in cents, truncated toward zero. */
  function ToIntBalance(cents: int): int {
    if cents >= 0 then cents / 100 else -(-cents / 100)
  }

  predicate WithinLimit(cents: int, amount: int) {
    ToIntBalance(cents) - amount >= OVERDRAFT_LIMIT
  }

  function DepositEffect(db: Db, destination: string, amount: int, now: int): Result<Db, Error> {
    if amount <= 0 then Failure(InvalidAmount)
    else if destination !in db.accounts then Success(Created(db, destination, 100 * amount, Deposit, now))
    else Success(Recorded(db, destination, 100 * amount, Deposit, None, now))
  }

  function WithdrawEffect(db: Db, origin: string, amount: int, now: int): Result<Db, Error> {
    if amount <= 0 then Failure(InvalidAmount)
    else if origin !in db.accounts then Failure(AccountNotFound(origin))
    else if !WithinLimit(db.accounts[origin].balance, amount) then Failure(InsufficientFunds(origin))
    else Success(Recorded(db, origin, -100 * amount, Withdrawal, None, now))
  }

  function TransferEffect(db: Db, origin: string, destination: string, amount: int, now: int): Result<Db, Error> {
    if amount <= 0 then Failure(InvalidAmount)
    else if origin !in db.accounts then Failure(AccountNotFound(origin))
    else if !WithinLimit(db.accounts[origin].balance, amount) then Failure(InsufficientFunds(origin))
    else
      var ensured := Ensured(db, destination, now);
      var debited := Recorded(ensured, origin, -100 * amount, TransferOut, Some(destination), now);
      Success(Recorded(debited, destination, 100 * amount, TransferIn, Some(origin), now))
  }

  /** What the routes answer: the whole units of the balances just reported. */
  function Reply(db: Db, id: string): int
    requires id in db.accounts
  {
    ToIntBalance(Reported(db, id))
  }

  /** A transfer reports its origin before the destination is credited. */
  function TransferReply(db: Db, origin: string, destination: string, amount: int, now: int): (int, int)
    requires origin in db.accounts
  {
    var debited := Recorded(Ensured(db, destination, now), origin, -100 * amount, TransferOut, Some(destination), now);
    (Reply(debited, origin),
     Reply(Recorded(debited, destination, 100 * amount, TransferIn, Some(origin), now), destination))
  }

  class Service {
    const session: Session
    const repo: Repository

    constructor (session: Session)
      ensures this.session == session && repo.session == session
    {
      this.session := session;
      repo := new Repository(session);
    }

    /** On failure the caller rolls back, so only the error is promised. */
    method Deposit(destination: string, amount: int) returns (r: Result<int, Error>)
      requires repo.session == session
      modifies session
      ensures match DepositEffect(old(session.Tables()), destination, amount, session.now)
              case Success(db) =>
                session.Tables() == db && destination in db.accounts && r == Success(Reply(db, destination))
              case Failure(e) => r == Failure(e)
    {
      if amount <= 0 { return Failure(InvalidAmount); }
      session.LockRow(destination);
      if destination !in session.accounts {
        var created := repo.Create(destination, 100 * amount, Tables.Deposit);
        assert created.Success?;
        return Success(ToIntBalance(created.value));
      }
      var balance := repo.RecordTransaction(destination, 100 * amount, Tables.Deposit, None);
      r := Success(ToIntBalance(balance));
    }

    method Withdraw(origin: string, amount: int) returns (r: Result<int, Error>)
      requires repo.session == session
      modifies session
      ensures match WithdrawEffect(old(session.Tables()), origin, amount, session.now)
              case Success(db) => session.Tables() == db && origin in db.accounts && r == Success(Reply(db, origin))
              case Failure(e) => r == Failure(e)
    {
      if amount <= 0 { return Failure(InvalidAmount); }
      session.LockRow(origin);
      if origin !in session.accounts { return Failure(AccountNotFound(origin)); }
      var current := ToIntBalance(session.accounts[origin].balance);
      if current - amount < OVERDRAFT_LIMIT { return Failure(InsufficientFunds(origin)); }
      var balance := repo.RecordTransaction(origin, -100 * amount, Withdrawal, None);
      r := Success(ToIntBalance(balance));
    }

    /** The origin row is locked first and both rows again in sorted order: not a sorted acquisition. */
    method Transfer(origin: string, destination: string, amount: int) returns (r: Result<(int, int), Error>)
      requires repo.session == session
      modifies session
      ensures match TransferEffect(old(session.Tables()), origin, destination, amount, session.now)
              case Success(db) =>
                && session.Tables() == db && origin in old(session.accounts)
                && r == Success(TransferReply(old(session.Tables()), origin, destination, amount, session.now))
                && session.locked == old(session.locked) + LegacyLockOrder(origin, destination)
              case Failure(e) => r == Failure(e)
    {
      if amount <= 0 { return Failure(InvalidAmount); }
      session.LockRow(origin);
      if origin !in session.accounts { return Failure(AccountNotFound(origin)); }
      var current := ToIntBalance(session.accounts[origin].balance);
      if current - amount < OVERDRAFT_LIMIT { return Failure(InsufficientFunds(origin)); }
      repo.EnsureAccount(destination);
      repo.LockAccountsForUpdate([origin, destination]);
      var originBalance := repo.RecordTransaction(origin, -100 * amount, TransferOut, Some(destination));
      var destinationBalance := repo.RecordTransaction(destination, 100 * amount, TransferIn, Some(origin));
      r := Success((ToIntBalance(originBalance), ToIntBalance(destinationBalance)));
    }
  }

  function LegacyLockOrder(origin: string, destination: string): seq<string> {
    [origin] + Sorted([origin, destination])
  }

  // ---------------------------------------------------------------- the limit under truncation

  /** Whole units of a balance lie between it and zero, less than a unit away. */
  lemma TruncatesTowardZero(cents: int)
    ensures var units := ToIntBalance(cents);
            if cents >= 0 then 100 * units <= cents < 100 * units + 100 else 100 * units - 100 < cents <= 100 * units
  {
  }

  /** A debit of whole units accepted by the truncating check leaves at least -1000.99. */
  lemma AcceptedDebitFloor(cents: int, amount: int)
    requires WithinLimit(cents, amount)
    ensures cents - 100 * amount >= -100099
    ensures cents % 100 == 0 ==> cents - 100 * amount >= -100000
  {
  }

  /** Exactly when the truncating check agrees with the documented limit of -1000: unless the balance is already
      negative and the debit ends in the last unit below the limit. */
  lemma TruncationExactly(cents: int, amount: int)
    ensures WithinLimit(cents, amount) <==>
            cents - 100 * amount >= 100 * OVERDRAFT_LIMIT
            || (cents < 0 && cents - 100 * amount > 100 * (OVERDRAFT_LIMIT - 1))
  {
  }
}
