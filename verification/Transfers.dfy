/** The money movements a signed-in subject can ask for. */
module Transfers {
  import opened Prelude
  import opened Errors
  import opened Tables
  import opened TextOrder
  import opened OnboardingAccounts
  import Ledger
  import Money
  import Recipient

  /** `require_owned_account` when a source is named, otherwise `require_onboarded_account`. */
  function Origin(db: Db, subject: string, source: Option<string>): (r: Result<string, Error>)
    ensures r.Success? ==>
              && r.value in Owned(db.accounts, subject)
              && db.accounts[r.value].active && db.accounts[r.value].onboarding.Ready()
  {
    if HasText(source) then
      var id :- GetOwned(db.accounts, subject, source.value);
      Usable(db, id)
    else match Primary(db.accounts, subject)
      case None => Failure(OnboardingError(OnboardingIncomplete))
      case Some(id) => Usable(db, id)
  }

  function Usable(db: Db, id: string): Result<string, Error>
    requires id in db.accounts
  {
    if !db.accounts[id].active then Failure(ForbiddenAccountAccess(id))
    else if !db.accounts[id].onboarding.Ready() then Failure(OnboardingError(OnboardingIncomplete))
    else Success(id)
  }

  datatype Destination =
    | ById(id: string)
    | ByName(account: Option<string>, document: Option<string>)

  function DestinationOf(db: Db, destination: Destination): (r: Result<string, Error>)
    ensures r.Success? ==> r.value in db.accounts && db.accounts[r.value].active
  {
    match destination
    case ById(id) => if id !in db.accounts || !db.accounts[id].active then Failure(AccountNotFound(id)) else Success(id)
    case ByName(account, document) => Recipient.Resolve(db, account, document)
  }

  /** The parties of a transfer, with every check that comes before the ledger. */
  function Parties(db: Db, subject: string, source: Option<string>, destination: Destination)
    : (r: Result<(string, string), Error>)
    ensures r.Success? ==>
              && r.value.0 in Owned(db.accounts, subject) && r.value.1 in db.accounts && r.value.0 != r.value.1
              && db.accounts[r.value.0].onboarding.Ready()
              && (db.accounts[r.value.1].owner.Some? ==> db.accounts[r.value.1].onboarding.Ready())
  {
    var origin :- Origin(db, subject, source);
    var target :- DestinationOf(db, destination);
    if target == origin then Failure(SameAccountTransfer)
    else if db.accounts[target].owner.Some? && !db.accounts[target].onboarding.Ready() then
      Failure(OnboardingError(OnboardingIncomplete))
    else Success((origin, target))
  }

  function BothLedgerAccounts(db: Db, origin: string, target: string): Db {
    Ledger.WithLedgerAccount(Ledger.WithLedgerAccount(db, origin), target)
  }

  /** The ledger call, with a replay caught. */
  function SendEffect(db: Db, origin: string, target: string, cents: int, key: Option<string>, now: int)
    : Result<Db, Error>
    requires origin in db.accounts
  {
    match Ledger.TransferEffect(db, origin, target, cents, key, now)
    case Success(after) => Success(after)
    case Failure(IdempotentReplay(_)) => Success(BothLedgerAccounts(db, origin, target))
    case Failure(e) => Failure(e)
  }

  /** `TransferService.transfer`: a replayed key is answered as a success that moves nothing. */
  function TransferEffect(db: Db, cfg: Settings, subject: string, amount: string, source: Option<string>,
                          destination: Destination, key: Option<string>, now: int): Result<Db, Error>
  {
    if !HasText(key) then Failure(OnboardingError(KeyRequired))
    else
      var cents :- Money.ParsePositiveMoney(amount);
      if cents > cfg.maxTransfer then Failure(LimitExceeded)
      else
        var (origin, target) :- Parties(db, subject, source, destination);
        SendEffect(db, origin, target, cents, key, now)
  }

  function RequestText(requestId: Option<string>): string {
    if requestId.Some? then requestId.value else "None"
  }

  function WithdrawKey(subject: string, requestId: Option<string>, key: Option<string>): string {
    if HasText(key) then key.value else "withdraw:" + subject + ":" + RequestText(requestId)
  }

  /** `DemoBankService.withdraw`: here a replayed key is an error. */
  function WithdrawEffect(db: Db, cfg: Settings, subject: string, amount: string, requestId: Option<string>,
                          key: Option<string>, now: int): Result<Db, Error>
  {
    var cents :- Money.ParsePositiveMoney(amount);
    if cents > cfg.maxWithdraw then Failure(LimitExceeded)
    else
      var origin :- Origin(db, subject, None);
      Ledger.WithdrawEffect(db, origin, cents, Some(WithdrawKey(subject, requestId, key)), now)
  }

  class TransferService {
    const session: Session
    const ledger: Ledger.LedgerService
    const cfg: Settings

    constructor (session: Session, cfg: Settings)
      ensures this.session == session && ledger.session == session && this.cfg == cfg
    {
      this.session := session;
      this.cfg := cfg;
      ledger := new Ledger.LedgerService(session);
    }

    /** Both rows are locked in sorted order before any money moves. */
    method Send(origin: string, target: string, cents: int, key: Option<string>) returns (r: Result<(int, int), Error>)
      requires ledger.session == session && origin in session.accounts && target in session.accounts
      modifies session
      ensures match SendEffect(old(session.Tables()), origin, target, cents, key, session.now)
              case Success(db) =>
                && session.Tables() == db && origin in db.accounts && target in db.accounts
                && r == Success((db.accounts[origin].balance, db.accounts[target].balance))
                && session.locked == old(session.locked) + Sorted([origin, target])
              case Failure(e) => r == Failure(e)
    {
      var ids := Sorted([origin, target]);
      for i := 0 to |ids|
        modifies session`locked
        invariant session.locked == old(session.locked) + ids[..i]
      {
        session.LockRow(ids[i]);
        assert ids[..i + 1] == ids[..i] + [ids[i]];
      }
      assert ids[..|ids|] == ids;
      TransferKeepsKeys(session.Tables(), origin, target, cents, key, session.now);
      var posted := ledger.Transfer(origin, target, cents, key);
      if posted.Failure? && !posted.error.IdempotentReplay? {
        return Failure(posted.error);
      }
      r := Success((session.accounts[origin].balance, session.accounts[target].balance));
    }

    method Transfer(subject: string, amount: string, source: Option<string>, destination: Destination,
                    key: Option<string>) returns (r: Result<(int, int), Error>)
      requires ledger.session == session
      modifies session
      ensures match TransferEffect(old(session.Tables()), cfg, subject, amount, source, destination, key, session.now)
              case Success(db) =>
                var parties := Parties(old(session.Tables()), subject, source, destination);
                && session.Tables() == db && parties.Success?
                && parties.value.0 in db.accounts && parties.value.1 in db.accounts
                && r == Success((db.accounts[parties.value.0].balance, db.accounts[parties.value.1].balance))
                && session.locked == old(session.locked) + Sorted([parties.value.0, parties.value.1])
              case Failure(e) => r == Failure(e)
    {
      if !HasText(key) {
        return Failure(OnboardingError(KeyRequired));
      }
      var cents :- Money.ParsePositiveMoney(amount);
      if cents > cfg.maxTransfer {
        return Failure(LimitExceeded);
      }
      var parties :- Parties(session.Tables(), subject, source, destination);
      r := Send(parties.0, parties.1, cents, key);
    }

    method Withdraw(subject: string, amount: string, requestId: Option<string>, key: Option<string>)
      returns (r: Result<int, Error>)
      requires ledger.session == session
      modifies session
      ensures match WithdrawEffect(old(session.Tables()), cfg, subject, amount, requestId, key, session.now)
              case Success(db) =>
                var origin := Origin(old(session.Tables()), subject, None);
                && session.Tables() == db && origin.Success? && origin.value in db.accounts
                && r == Success(db.accounts[origin.value].balance)
              case Failure(e) => r == Failure(e)
    {
      var cents :- Money.ParsePositiveMoney(amount);
      if cents > cfg.maxWithdraw {
        return Failure(LimitExceeded);
      }
      var origin :- Origin(session.Tables(), subject, None);
      ghost var before := session.Tables();
      var used := WithdrawKey(subject, requestId, key);
      var posted := ledger.Withdraw(origin, cents, Some(used));
      if posted.Failure? {
        return Failure(posted.error);
      }
      WithdrawKeepsKeys(before, origin, cents, Some(used), session.now);
      r := Success(session.accounts[origin].balance);
    }
  }

  lemma TransferKeepsKeys(db: Db, origin: string, target: string, cents: int, key: Option<string>, now: int)
    requires origin in db.accounts
    ensures var r := Ledger.TransferEffect(db, origin, target, cents, key, now);
            r.Success? ==> r.value.accounts.Keys == db.accounts.Keys
  {
    var p := Ledger.Posted(TransferEntry, Ledger.TransferLines(origin, target, cents), key, true, now);
    Ledger.MirrorKeepsKeys(Ledger.Book(db.accounts, db.txns), p, 2);
  }

  lemma WithdrawKeepsKeys(db: Db, id: string, cents: int, key: Option<string>, now: int)
    requires id in db.accounts
    ensures var r := Ledger.WithdrawEffect(db, id, cents, key, now);
            r.Success? ==> r.value.accounts.Keys == db.accounts.Keys
  {
    var p := Ledger.Posted(WithdrawEntry, [Line(id, Debit, cents), Line(SYS_CASH, Credit, cents)], key, true, now);
    Ledger.MirrorKeepsKeys(Ledger.Book(db.accounts, db.txns), p, 2);
  }
}
