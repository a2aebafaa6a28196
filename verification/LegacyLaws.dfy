/** The legacy routes: when they succeed, exactly what they move, and what they answer. */
module LegacyLaws {
  import opened Prelude
  import opened Errors
  import opened Tables
  import opened Bank
  import opened LedgerLaws
  import opened AccountRepository
  import AccountService

  /** The limit as the truncating check enforces it, in cents: -1000 units, or less than -1001 from below zero. */
  predicate Accepts(balance: int, units: int) {
    balance - 100 * units >= -100000 || (balance < 0 && balance - 100 * units > -100100)
  }

  /** An account named for the first time: nobody's, open, empty. */
  function Newcomer(now: int): Account {
    Account(None, true, true, NotStarted, None, None, 0, 0, now)
  }

  function WithNewcomer(accounts: map<string, Account>, id: string, now: int): map<string, Account> {
    if id in accounts then accounts else accounts[id := Newcomer(now)]
  }

  /** A legacy deposit of a positive amount always succeeds and credits exactly that, to a new account if need be. */
  lemma DepositExactly(db: Db, cfg: Settings, target: string, units: int, now: int)
    ensures CallEffect(db, cfg, Request(LegacyDeposit(target, units), now))
         == if units <= 0 then Failure(InvalidAmount)
            else Success(db.(accounts := Adjusted(WithNewcomer(db.accounts, target, now), target, 100 * units),
                             txns := db.txns + [Txn(target, 100 * units, Deposit, None, None, now)]))
  {
  }

  /** A legacy withdrawal debits exactly its amount from an account that exists and is within the limit. */
  lemma WithdrawalExactly(db: Db, cfg: Settings, origin: string, units: int, now: int)
    ensures CallEffect(db, cfg, Request(LegacyWithdraw(origin, units), now))
         == if units <= 0 then Failure(InvalidAmount)
            else if origin !in db.accounts then Failure(AccountNotFound(origin))
            else if !Accepts(db.accounts[origin].balance, units) then Failure(InsufficientFunds(origin))
            else Success(db.(accounts := Adjusted(db.accounts, origin, -100 * units),
                             txns := db.txns + [Txn(origin, -100 * units, Withdrawal, None, None, now)]))
  {
    if origin in db.accounts {
      AccountService.TruncationExactly(db.accounts[origin].balance, units);
    }
  }

  /** A legacy transfer takes exactly its amount from the origin and gives exactly that to the target, which is created
      if it is new; a transfer to oneself leaves the balance as it was. */
  lemma TransferExactly(db: Db, cfg: Settings, origin: string, target: string, units: int, now: int)
    ensures var r := CallEffect(db, cfg, Request(LegacyTransfer(origin, target, units), now));
            if units <= 0 then r == Failure(InvalidAmount)
            else if origin !in db.accounts then r == Failure(AccountNotFound(origin))
            else if !Accepts(db.accounts[origin].balance, units) then r == Failure(InsufficientFunds(origin))
            else
              var accounts := WithNewcomer(db.accounts, target, now);
              r == Success(db.(accounts := if origin == target then accounts
                                           else Adjusted(Adjusted(accounts, origin, -100 * units), target, 100 * units),
                               txns := db.txns
                                       + [Txn(origin, -100 * units, TransferOut, Some(target), None, now),
                                          Txn(target, 100 * units, TransferIn, Some(origin), None, now)]))
  {
    if origin in db.accounts {
      AccountService.TruncationExactly(db.accounts[origin].balance, units);
    }
    if units > 0 && origin in db.accounts && Accepts(db.accounts[origin].balance, units) {
      var after := CallEffect(db, cfg, Request(LegacyTransfer(origin, target, units), now)).value;
      var out, into := Txn(origin, -100 * units, TransferOut, Some(target), None, now),
                       Txn(target, 100 * units, TransferIn, Some(origin), None, now);
      assert db.txns + [out] + [into] == db.txns + [out, into];
      if origin == target {
        assert after.accounts == db.accounts;
      }
    }
  }

  // ---------------------------------------------------------------- what is answered

  /** In sound tables a reply is the whole units of the balance the account ends with. */
  lemma ReplyIsTheBalance(db: Db, id: string)
    requires CachedIsLog(db) && id in db.accounts
    ensures AccountService.Reply(db, id) == AccountService.ToIntBalance(db.accounts[id].balance)
  {
  }

  /** And a transfer's replies are the origin's balance less the amount, and the target's new balance. */
  lemma TransferReplyIsTheBalances(db: Db, cfg: Settings, origin: string, target: string, units: int, now: int)
    requires Sound(db) && origin in db.accounts && origin != target
    requires CallEffect(db, cfg, Request(LegacyTransfer(origin, target, units), now)).Success?
    ensures var after := CallEffect(db, cfg, Request(LegacyTransfer(origin, target, units), now)).value;
            && origin in after.accounts && target in after.accounts
            && AccountService.TransferReply(db, origin, target, units, now)
               == (AccountService.ToIntBalance(after.accounts[origin].balance),
                   AccountService.ToIntBalance(after.accounts[target].balance))
  {
    hide AccountService.ToIntBalance, AccountService.WithinLimit, Sum;
    if target !in db.accounts {
      NewAccountKeepsSound(db, target, BareAccount(now));
    }
    var ensured := Ensured(db, target, now);
    RecordKeepsCachedIsLog(ensured, origin, -100 * units, TransferOut, Some(target), now);
    var debited := Recorded(ensured, origin, -100 * units, TransferOut, Some(target), now);
    RecordKeepsCachedIsLog(debited, target, 100 * units, TransferIn, Some(origin), now);
    ReplyIsTheBalance(debited, origin);
    ReplyIsTheBalance(Recorded(debited, target, 100 * units, TransferIn, Some(origin), now), target);
  }
}
