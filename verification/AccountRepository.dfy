/** The second write path: rows recorded straight into the log, without postings. */
module AccountRepository {
  import opened Prelude
  import opened Errors
  import opened Tables
  import opened TextOrder
  import Ledger
  import opened LedgerLaws

  /** Column defaults of a row created outside onboarding. */
  function BareAccount(now: int): Account {
    Account(None, true, true, NotStarted, None, None, 0, 0, now)
  }

  function Recorded(db: Db, id: string, amount: int, kind: Kind, counterparty: Option<string>, now: int): Db
    requires id in db.accounts
  {
    db.(txns := db.txns + [Txn(id, amount, kind, counterparty, None, now)],
        accounts := Adjusted(db.accounts, id, amount))
  }

  function WithAccount(db: Db, id: string, account: Account): Db {
    db.(accounts := db.accounts[id := account])
  }

  /** `create`: a fresh row, and an opening transaction unless the initial balance is zero. */
  function Created(db: Db, id: string, initial: int, kind: Kind, now: int): Db {
    var bare := WithAccount(db, id, BareAccount(now));
    if initial == 0 then bare else Recorded(bare, id, initial, kind, None, now)
  }

  /** `ensure_account` */
  function Ensured(db: Db, id: string, now: int): Db {
    if id in db.accounts then db else WithAccount(db, id, BareAccount(now))
  }

  /** The balance the repository reports for an account: the cached one, or the recomputed sum when that is zero. */
  function Reported(db: Db, id: string): int
    requires id in db.accounts
  {
    if db.accounts[id].balance != 0 then db.accounts[id].balance else Sum(db.txns, OfAccount(id))
  }

  class Repository {
    const session: Session

    constructor (session: Session)
      ensures this.session == session
    {
      this.session := session;
    }

    method RecordTransaction(id: string, amount: int, kind: Kind, counterparty: Option<string>) returns (balance: int)
      requires id in session.accounts
      modifies session`txns, session`accounts
      ensures session.Tables() == Recorded(old(session.Tables()), id, amount, kind, counterparty, session.now)
      ensures balance == Reported(session.Tables(), id)
    {
      session.txns := session.txns + [Txn(id, amount, kind, counterparty, None, session.now)];
      var account := session.accounts[id];
      session.accounts := session.accounts[id := account.(balance := account.balance + amount)];
      var total := SumBalance(id);
      balance := if session.accounts[id].balance != 0 then session.accounts[id].balance else total;
    }

    /** `_sum_balance` */
    method SumBalance(id: string) returns (total: int)
      ensures total == Sum(session.txns, OfAccount(id))
    {
      total := 0;
      var rows := session.txns;
      for i := 0 to |rows|
        invariant rows == session.txns
        invariant total == Sum(rows[..i], OfAccount(id))
      {
        SumAppend(rows[..i], rows[i], OfAccount(id));
        assert rows[..i + 1] == rows[..i] + [rows[i]];
        if rows[i].account == id { total := total + rows[i].amount; }
      }
      assert rows[..|rows|] == rows;
    }

    method Create(id: string, initial: int, kind: Kind) returns (r: Result<int, Error>)
      modifies session`txns, session`accounts
      ensures if id in old(session.accounts)
              then r == Failure(IntegrityError) && session.Tables() == old(session.Tables())
              else session.Tables() == Created(old(session.Tables()), id, initial, kind, session.now)
                   && r == Success(if initial == 0 then 0 else Reported(session.Tables(), id))
    {
      if id in session.accounts {
        return Failure(IntegrityError);
      }
      session.accounts := session.accounts[id := BareAccount(session.now)];
      if initial != 0 {
        var balance := RecordTransaction(id, initial, kind, None);
        return Success(balance);
      }
      r := Success(0);
    }

    method EnsureAccount(id: string)
      modifies session`accounts
      ensures session.Tables() == Ensured(old(session.Tables()), id, session.now)
    {
      if id !in session.accounts {
        session.accounts := session.accounts[id := BareAccount(session.now)];
      }
    }

    /** Row locks are taken in sorted order, whatever order the ids are given in. */
    method LockAccountsForUpdate(ids: seq<string>)
      modifies session`locked
      ensures session.locked == old(session.locked) + Sorted(ids)
    {
      var ordered := Sorted(ids);
      for i := 0 to |ordered|
        invariant session.locked == old(session.locked) + ordered[..i]
      {
        session.LockRow(ordered[i]);
        assert ordered[..i + 1] == ordered[..i] + [ordered[i]];
      }
      assert ordered[..|ordered|] == ordered;
    }
  }

  /** Under agreement of cache and log the reported balance is the cached one even when that is zero. */
  lemma ReportedBalanceIsCached(db: Db, id: string, amount: int, kind: Kind, counterparty: Option<string>, now: int)
    requires id in db.accounts && CachedIsLog(db)
    ensures var after := Recorded(db, id, amount, kind, counterparty, now);
            CachedIsLog(after) && after.accounts[id].balance == Sum(after.txns, OfAccount(id))
  {
    RecordKeepsCachedIsLog(db, id, amount, kind, counterparty, now);
  }

  lemma RecordKeepsCachedIsLog(db: Db, id: string, amount: int, kind: Kind, counterparty: Option<string>, now: int)
    requires id in db.accounts && CachedIsLog(db)
    ensures CachedIsLog(Recorded(db, id, amount, kind, counterparty, now))
  {
    forall other ensures Sum(Recorded(db, id, amount, kind, counterparty, now).txns, OfAccount(other))
                      == Sum(db.txns, OfAccount(other)) + (if other == id then amount else 0) {
      SumAppend(db.txns, Txn(id, amount, kind, counterparty, None, now), OfAccount(other));
    }
  }

  /** The unposted write path keeps the tables sound: the legacy part of the log takes up the difference. */
  lemma RecordKeepsSound(db: Db, id: string, amount: int, kind: Kind, counterparty: Option<string>, now: int)
    requires id in db.accounts && Sound(db)
    ensures Sound(Recorded(db, id, amount, kind, counterparty, now))
  {
    RecordKeepsCachedIsLog(db, id, amount, kind, counterparty, now);
    forall other ensures Sum(Recorded(db, id, amount, kind, counterparty, now).txns, LegacyOf(other))
                      == Sum(db.txns, LegacyOf(other)) + (if other == id then amount else 0) {
      SumAppend(db.txns, Txn(id, amount, kind, counterparty, None, now), LegacyOf(other));
    }
  }

  /** A new account with nothing on it has no transactions and no postings yet. */
  lemma NewAccountKeepsSound(db: Db, id: string, account: Account)
    requires Sound(db) && id !in db.accounts && account.balance == 0
    ensures Sound(WithAccount(db, id, account))
  {
    SumOfNothing(db.txns, OfAccount(id));
    SumOfNothing(db.txns, LegacyOf(id));
    if id != SYS_CASH {
      assert forall p | p in db.postings :: p.line.account != id;
      SumOfNothing(db.postings, Ledger.SideOf(id, Credit));
      SumOfNothing(db.postings, Ledger.SideOf(id, Debit));
    }
  }
}
