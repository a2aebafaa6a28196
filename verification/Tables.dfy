/** The rows the services share, as values (`Db`) and as the session object the services update in place. */
module Tables {
  import opened Prelude

  /** The internal cash account that grants are drawn from and withdrawals are paid into. */
  const SYS_CASH := "sys_cash"

  datatype Onboarding = NotStarted | InProgress | Completed | Skipped {
    /** READY_STATUSES */
    predicate Ready() {
      Completed? || Skipped?
    }
  }

  /** Amounts are whole cents. `floor` is the column `overdraft_limit`: the least balance a debit may leave. */
  datatype Account = Account(
    owner: Option<string>,
    checking: bool,
    active: bool,
    onboarding: Onboarding,
    number: Option<nat>,
    digit: Option<nat>,
    balance: int,
    floor: int,
    createdAt: int)

  datatype Side = Debit | Credit | OtherSide(name: string)

  datatype Entry = WelcomeGrant | TransferEntry | WithdrawEntry | OtherEntry(name: string)

  datatype Line = Line(account: string, side: Side, amount: int)

  datatype Journal = Journal(entry: Entry, key: Option<string>)

  datatype Posting = Posting(journal: nat, line: Line)

  datatype Kind = DemoGrant | TransferOut | TransferIn | Withdrawal | Deposit | OtherKind(name: string)

  /** A row of `transactions`; its id is its position in the table. */
  datatype Txn = Txn(
    account: string,
    amount: int,
    kind: Kind,
    counterparty: Option<string>,
    key: Option<string>,
    createdAt: int)

  datatype SessionStatus = Draft | SkippedSession | ApprovedDemo {
    predicate Terminal() {
      !Draft?
    }
  }

  datatype OnboardingSession = OnboardingSession(
    subject: string,
    account: string,
    status: SessionStatus,
    createdAt: int)

  datatype Holder = Holder(document: Option<string>)

  datatype Db = Db(
    accounts: map<string, Account>,
    ledgerAccounts: set<string>,
    journals: seq<Journal>,
    postings: seq<Posting>,
    txns: seq<Txn>,
    sessions: seq<OnboardingSession>,
    holders: map<string, Holder>)

  const EMPTY := Db(map[], {}, [], [], [], [], map[])

  datatype Settings = Settings(
    welcome: int,
    maxTransfer: int,
    maxWithdraw: int,
    maxAccounts: int,
    numberStart: nat)

  /** `if key:` — an absent or empty key is no key. */
  predicate HasText(key: Option<string>) {
    key.Some? && key.value != ""
  }

  /** One database transaction: the tables, the row locks it took in order, and `session.info`. */
  class Session {
    var accounts: map<string, Account>
    var ledgerAccounts: set<string>
    var journals: seq<Journal>
    var postings: seq<Posting>
    var txns: seq<Txn>
    var sessions: seq<OnboardingSession>
    var holders: map<string, Holder>
    var locked: seq<string>
    var pendingNumber: Option<nat>
    /** `now()`: the start time of this transaction. */
    const now: int

    constructor (db: Db, now: int)
      ensures Tables() == db && this.now == now && locked == [] && pendingNumber == None
    {
      accounts, ledgerAccounts, journals := db.accounts, db.ledgerAccounts, db.journals;
      postings, txns, sessions, holders := db.postings, db.txns, db.sessions, db.holders;
      locked, pendingNumber := [], None;
      this.now := now;
    }

    function Tables(): Db
      reads this
    {
      Db(accounts, ledgerAccounts, journals, postings, txns, sessions, holders)
    }

    /** `session.rollback()` */
    method Rollback(db: Db)
      modifies this
      ensures Tables() == db
    {
      accounts, ledgerAccounts, journals := db.accounts, db.ledgerAccounts, db.journals;
      postings, txns, sessions, holders := db.postings, db.txns, db.sessions, db.holders;
    }

    /** `select ... with_for_update()` on one row. */
    method LockRow(id: string)
      modifies this`locked
      ensures locked == old(locked) + [id]
    {
      locked := locked + [id];
    }
  }
}
