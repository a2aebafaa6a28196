/** The double-entry ledger: what `post` and the three money movements built on it do to the tables. */
module Ledger {
  import opened Prelude
  import opened Errors
  import opened Tables

  // ---------------------------------------------------------------- measures

  /** What a journal line adds to the balance of an account. */
  function Net(id: string, line: Line): int {
    if line.account != id then 0
    else if line.side == Credit then line.amount
    else if line.side == Debit then -line.amount
    else 0
  }

  function NetOf(id: string): Line -> int {
    (line: Line) => Net(id, line)
  }

  function PostedTo(id: string): Posting -> int {
    (p: Posting) => Net(id, p.line)
  }

  function OnSide(side: Side): Line -> int {
    (line: Line) => if line.side == side then line.amount else 0
  }

  function SideOf(id: string, side: Side): Posting -> int {
    (p: Posting) => if p.line.account == id && p.line.side == side then p.line.amount else 0
  }

  /** `customer_balance`: credits minus debits of the postings on one ledger account. */
  function CustomerBalance(postings: seq<Posting>, id: string): int {
    Sum(postings, SideOf(id, Credit)) - Sum(postings, SideOf(id, Debit))
  }

  // ---------------------------------------------------------------- post

  /** Index of the journal that holds an idempotency key. */
  function KeyIndex(journals: seq<Journal>, key: string): (r: Option<nat>)
    ensures r.Some? ==> r.value < |journals| && journals[r.value].key == Some(key)
    ensures r.None? ==> forall j | 0 <= j < |journals| :: journals[j].key != Some(key)
  {
    if journals == [] then None
    else
      var last := |journals| - 1;
      var earlier := KeyIndex(journals[..last], key);
      if earlier.Some? then earlier
      else if journals[last].key == Some(key) then Some(last)
      else None
  }

  predicate ValidLine(line: Line) {
    (line.side == Debit || line.side == Credit) && line.amount > 0
  }

  /** The type of the mirrored transaction row. */
  function KindOf(entry: Entry, side: Side): Kind {
    match entry
    case WelcomeGrant => DemoGrant
    case TransferEntry => if side == Debit then TransferOut else TransferIn
    case WithdrawEntry => Withdrawal
    case OtherEntry(name) => OtherKind(name)
  }

  /** First line at or after `from` that names another customer account. */
  function OtherParty(lines: seq<Line>, id: string, from: nat): Option<string>
    requires from <= |lines|
    decreases |lines| - from
  {
    if from == |lines| then None
    else if lines[from].account != id && lines[from].account != SYS_CASH then Some(lines[from].account)
    else OtherParty(lines, id, from + 1)
  }

  function CounterpartyOf(entry: Entry, lines: seq<Line>, id: string): Option<string> {
    if entry == TransferEntry then OtherParty(lines, id, 0) else None
  }

  datatype Book = Book(accounts: map<string, Account>, txns: seq<Txn>)

  /** Everything a mirrored row takes from its journal. */
  datatype Posted = Posted(entry: Entry, lines: seq<Line>, key: Option<string>, mirror: bool, now: int)

  function Delta(line: Line): int {
    if line.side == Credit then line.amount else -line.amount
  }

  function MirrorRow(p: Posted, line: Line): Txn {
    Txn(line.account, Delta(line), KindOf(p.entry, line.side), CounterpartyOf(p.entry, p.lines, line.account),
        p.key, p.now)
  }

  /** Cached balance and mirrored row of one line; the cash account and unknown accounts are skipped. */
  function MirrorLine(book: Book, p: Posted, line: Line): Book {
    if line.account == SYS_CASH || line.account !in book.accounts then book
    else
      var account := book.accounts[line.account];
      Book(book.accounts[line.account := account.(balance := account.balance + Delta(line))],
           if p.mirror then book.txns + [MirrorRow(p, line)] else book.txns)
  }

  function MirrorLines(book: Book, p: Posted, n: nat): Book
    requires n <= |p.lines|
  {
    if n == 0 then book else MirrorLine(MirrorLines(book, p, n - 1), p, p.lines[n - 1])
  }

  lemma {:induction false} MirrorKeepsKeys(book: Book, p: Posted, n: nat)
    requires n <= |p.lines|
    ensures MirrorLines(book, p, n).accounts.Keys == book.accounts.Keys
  {
    if n == 0 {
    } else {
      MirrorKeepsKeys(book, p, n - 1);
    }
  }

  function PostingsFor(journal: nat, lines: seq<Line>): (r: seq<Posting>)
    ensures |r| == |lines|
    ensures forall i | 0 <= i < |lines| :: r[i] == Posting(journal, lines[i])
  {
    seq(|lines|, i requires 0 <= i < |lines| => Posting(journal, lines[i]))
  }

  /** `LedgerService.post`: the checks in their order, then journal, postings, cache and mirror. */
  function PostEffect(db: Db, p: Posted): Result<Db, Error> {
    if HasText(p.key) && KeyIndex(db.journals, p.key.value).Some? then
      Failure(IdempotentReplay(KeyIndex(db.journals, p.key.value).value))
    else if |p.lines| < 2 then Failure(LedgerError(TooFewPostings))
    else if Sum(p.lines, OnSide(Debit)) != Sum(p.lines, OnSide(Credit)) then
      Failure(LedgerError(Unbalanced))
    else if Sum(p.lines, OnSide(Debit)) <= 0 then Failure(LedgerError(NoAmount))
    else if exists i | 0 <= i < |p.lines| :: !ValidLine(p.lines[i]) then Failure(LedgerError(InvalidPosting))
    else
      var book := MirrorLines(Book(db.accounts, db.txns), p, |p.lines|);
      Success(db.(
        journals := db.journals + [Journal(p.entry, p.key)],
        postings := db.postings + PostingsFor(|db.journals|, p.lines),
        accounts := book.accounts,
        txns := book.txns))
  }

  // ---------------------------------------------------------------- movements

  /** `ensure_customer_ledger_account`, the cash account included. */
  function WithLedgerAccount(db: Db, id: string): Db {
    db.(ledgerAccounts := db.ledgerAccounts + {SYS_CASH, id})
  }

  function WelcomeGrantEffect(db: Db, id: string, amount: int, key: Option<string>, now: int): Result<Db, Error> {
    PostEffect(WithLedgerAccount(db, id),
               Posted(WelcomeGrant, [Line(SYS_CASH, Debit, amount), Line(id, Credit, amount)], key, true, now))
  }

  function TransferLines(origin: string, destination: string, amount: int): seq<Line> {
    [Line(origin, Debit, amount), Line(destination, Credit, amount)]
  }

  /** The funds check comes before the key check inside `post`. */
  function TransferEffect(db: Db, origin: string, destination: string, amount: int, key: Option<string>, now: int)
    : Result<Db, Error>
    requires origin in db.accounts
  {
    var ensured := WithLedgerAccount(WithLedgerAccount(db, origin), destination);
    if db.accounts[origin].balance - amount < db.accounts[origin].floor then Failure(InsufficientFunds(origin))
    else PostEffect(ensured, Posted(TransferEntry, TransferLines(origin, destination, amount), key, true, now))
  }

  function WithdrawEffect(db: Db, id: string, amount: int, key: Option<string>, now: int): Result<Db, Error>
    requires id in db.accounts
  {
    if db.accounts[id].balance - amount < db.accounts[id].floor then Failure(InsufficientFunds(id))
    else
      PostEffect(WithLedgerAccount(db, id),
                 Posted(WithdrawEntry, [Line(id, Debit, amount), Line(SYS_CASH, Credit, amount)], key, true, now))
  }

  // ---------------------------------------------------------------- service

  class LedgerService {
    const session: Session

    constructor (session: Session)
      ensures this.session == session
    {
      this.session := session;
    }

    method EnsureCustomerLedgerAccount(id: string)
      modifies session`ledgerAccounts
      ensures session.Tables() == WithLedgerAccount(old(session.Tables()), id)
    {
      if SYS_CASH !in session.ledgerAccounts {
        session.ledgerAccounts := session.ledgerAccounts + {SYS_CASH};
      }
      if id !in session.ledgerAccounts {
        session.ledgerAccounts := session.ledgerAccounts + {id};
      }
      assert session.ledgerAccounts == old(session.ledgerAccounts) + {SYS_CASH, id};
    }

    /** Debit and credit totals of a journal, as `post` adds them up. */
    method Totals(lines: seq<Line>) returns (debits: int, credits: int)
      ensures debits == Sum(lines, OnSide(Debit)) && credits == Sum(lines, OnSide(Credit))
    {
      debits, credits := 0, 0;
      for i := 0 to |lines|
        invariant debits == Sum(lines[..i], OnSide(Debit))
        invariant credits == Sum(lines[..i], OnSide(Credit))
      {
        SumAppend(lines[..i], lines[i], OnSide(Debit));
        SumAppend(lines[..i], lines[i], OnSide(Credit));
        assert lines[..i + 1] == lines[..i] + [lines[i]];
        if lines[i].side == Debit { debits := debits + lines[i].amount; }
        if lines[i].side == Credit { credits := credits + lines[i].amount; }
      }
      assert lines[..|lines|] == lines;
    }

    method FindCounterparty(lines: seq<Line>, id: string) returns (other: Option<string>)
      ensures other == OtherParty(lines, id, 0)
    {
      var i := 0;
      while i < |lines|
        invariant i <= |lines| && OtherParty(lines, id, 0) == OtherParty(lines, id, i)
      {
        if lines[i].account != id && lines[i].account != SYS_CASH {
          return Some(lines[i].account);
        }
        i := i + 1;
      }
      other := None;
    }

    /** Nothing is written unless the whole journal is accepted. */
    method Post(p: Posted) returns (r: Result<nat, Error>)
      requires p.now == session.now
      modifies session`journals, session`postings, session`accounts, session`txns
      ensures match PostEffect(old(session.Tables()), p)
              case Success(db) => r == Success(|old(session.journals)|) && session.Tables() == db
              case Failure(e) => r == Failure(e) && session.Tables() == old(session.Tables())
    {
      if HasText(p.key) {
        var found := KeyIndex(session.journals, p.key.value);
        if found.Some? {
          return Failure(IdempotentReplay(found.value));
        }
      }
      if |p.lines| < 2 {
        return Failure(LedgerError(TooFewPostings));
      }
      var debits, credits := Totals(p.lines);
      if debits != credits {
        return Failure(LedgerError(Unbalanced));
      }
      if debits <= 0 {
        return Failure(LedgerError(NoAmount));
      }
      for i := 0 to |p.lines|
        invariant forall j | 0 <= j < i :: ValidLine(p.lines[j])
      {
        if !ValidLine(p.lines[i]) {
          return Failure(LedgerError(InvalidPosting));
        }
      }
      var journal := |session.journals|;
      session.journals := session.journals + [Journal(p.entry, p.key)];
      for i := 0 to |p.lines|
        modifies session`postings
        invariant session.postings == old(session.postings) + PostingsFor(journal, p.lines)[..i]
      {
        session.postings := session.postings + [Posting(journal, p.lines[i])];
      }
      Mirror(p);
      r := Success(journal);
    }

    /** The loop that keeps `balance_cached` and the transaction log in step with the journal. */
    method Mirror(p: Posted)
      requires p.now == session.now
      modifies session`accounts, session`txns
      ensures Book(session.accounts, session.txns)
           == MirrorLines(Book(old(session.accounts), old(session.txns)), p, |p.lines|)
    {
      for i := 0 to |p.lines|
        invariant Book(session.accounts, session.txns)
               == MirrorLines(Book(old(session.accounts), old(session.txns)), p, i)
      {
        var line := p.lines[i];
        if line.account != SYS_CASH && line.account in session.accounts {
          var account := session.accounts[line.account];
          var delta := if line.side == Credit then line.amount else -line.amount;
          session.accounts := session.accounts[line.account := account.(balance := account.balance + delta)];
          if p.mirror {
            var counterparty := None;
            if p.entry == TransferEntry {
              counterparty := FindCounterparty(p.lines, line.account);
            }
            session.txns := session.txns
              + [Txn(line.account, delta, KindOf(p.entry, line.side), counterparty, p.key, session.now)];
          }
        }
      }
    }

    method GrantWelcome(id: string, amount: int, key: Option<string>) returns (r: Result<nat, Error>)
      modifies session`ledgerAccounts, session`journals, session`postings, session`accounts, session`txns
      ensures match WelcomeGrantEffect(old(session.Tables()), id, amount, key, session.now)
              case Success(db) => r.Success? && session.Tables() == db
              case Failure(e) => r == Failure(e) && session.Tables() == WithLedgerAccount(old(session.Tables()), id)
    {
      EnsureCustomerLedgerAccount(id);
      r := Post(Posted(WelcomeGrant, [Line(SYS_CASH, Debit, amount), Line(id, Credit, amount)],
                       key, true, session.now));
    }

    method Transfer(origin: string, destination: string, amount: int, key: Option<string>)
      returns (r: Result<nat, Error>)
      requires origin in session.accounts
      modifies session`ledgerAccounts, session`journals, session`postings, session`accounts, session`txns
      ensures match TransferEffect(old(session.Tables()), origin, destination, amount, key, session.now)
              case Success(db) => r.Success? && session.Tables() == db
              case Failure(e) =>
                && r == Failure(e)
                && session.Tables() == WithLedgerAccount(WithLedgerAccount(old(session.Tables()), origin), destination)
    {
      EnsureCustomerLedgerAccount(origin);
      EnsureCustomerLedgerAccount(destination);
      var balance := session.accounts[origin].balance;
      if balance - amount < session.accounts[origin].floor {
        return Failure(InsufficientFunds(origin));
      }
      r := Post(Posted(TransferEntry, TransferLines(origin, destination, amount), key, true, session.now));
    }

    method Withdraw(id: string, amount: int, key: Option<string>) returns (r: Result<nat, Error>)
      requires id in session.accounts
      modifies session`ledgerAccounts, session`journals, session`postings, session`accounts, session`txns
      ensures match WithdrawEffect(old(session.Tables()), id, amount, key, session.now)
              case Success(db) => r.Success? && session.Tables() == db
              case Failure(e) => r == Failure(e) && session.Tables() == WithLedgerAccount(old(session.Tables()), id)
    {
      EnsureCustomerLedgerAccount(id);
      var balance := session.accounts[id].balance;
      if balance - amount < session.accounts[id].floor {
        return Failure(InsufficientFunds(id));
      }
      r := Post(Posted(WithdrawEntry, [Line(id, Debit, amount), Line(SYS_CASH, Credit, amount)],
                       key, true, session.now));
    }
  }
}
