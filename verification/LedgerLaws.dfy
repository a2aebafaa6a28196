/** What every accepted journal keeps: double entry, unique keys, and agreement of the three balances. */
module LedgerLaws {
  import opened Prelude
  import opened Errors
  import opened Tables
  import opened Ledger

  // ---------------------------------------------------------------- properties of the tables

  function OfAccount(id: string): Txn -> int {
    (t: Txn) => if t.account == id then t.amount else 0
  }

  /** Rows written by `record_transaction` carry no idempotency key; mirrored rows always do. */
  function LegacyOf(id: string): Txn -> int {
    (t: Txn) => if t.account == id && t.key.None? then t.amount else 0
  }

  /** The cached balance is the sum of the account's transactions. */
  ghost predicate CachedIsLog(db: Db) {
    forall id | id in db.accounts :: db.accounts[id].balance == Sum(db.txns, OfAccount(id))
  }

  /** The cached balance is the ledger balance plus the legacy rows. */
  ghost predicate CachedIsLedger(db: Db) {
    forall id | id in db.accounts && id != SYS_CASH ::
      db.accounts[id].balance == CustomerBalance(db.postings, id) + Sum(db.txns, LegacyOf(id))
  }

  /** Foreign keys hold. */
  ghost predicate Grounded(db: Db) {
    && (forall t | t in db.txns :: t.account in db.accounts)
    && (forall p | p in db.postings :: p.journal < |db.journals| && p.line.account in db.ledgerAccounts)
    && db.ledgerAccounts <= db.accounts.Keys + {SYS_CASH}
  }

  ghost predicate UniqueKeys(db: Db) {
    forall i, j | 0 <= i < j < |db.journals| && HasText(db.journals[i].key) ::
      db.journals[i].key != db.journals[j].key
  }

  function LinesOf(postings: seq<Posting>, journal: nat): seq<Line> {
    if postings == [] then []
    else
      var last := postings[|postings| - 1];
      LinesOf(postings[..|postings| - 1], journal) + (if last.journal == journal then [last.line] else [])
  }

  ghost predicate BalancedEntry(lines: seq<Line>) {
    && |lines| >= 2
    && (forall i | 0 <= i < |lines| :: ValidLine(lines[i]))
    && Sum(lines, OnSide(Debit)) == Sum(lines, OnSide(Credit)) > 0
  }

  ghost predicate DoubleEntry(db: Db) {
    forall j: nat | j < |db.journals| :: BalancedEntry(LinesOf(db.postings, j))
  }

  ghost predicate Sound(db: Db) {
    Grounded(db) && CachedIsLog(db) && CachedIsLedger(db) && UniqueKeys(db) && DoubleEntry(db)
  }

  // ---------------------------------------------------------------- postings

  lemma {:induction false} NewPostings(old_: seq<Posting>, journal: nat, lines: seq<Line>, id: string)
    ensures CustomerBalance(old_ + PostingsFor(journal, lines), id)
         == CustomerBalance(old_, id) + Sum(lines, NetOf(id))
  {
    if lines == [] {
      assert old_ + PostingsFor(journal, lines) == old_;
    } else {
      var rest, last := lines[..|lines| - 1], lines[|lines| - 1];
      NewPostings(old_, journal, rest, id);
      var before := old_ + PostingsFor(journal, rest);
      assert old_ + PostingsFor(journal, lines) == before + [Posting(journal, last)];
      SumAppend(before, Posting(journal, last), SideOf(id, Credit));
      SumAppend(before, Posting(journal, last), SideOf(id, Debit));
    }
  }

  lemma AppendAssociates<T>(a: seq<T>, b: seq<T>, x: T)
    ensures a + (b + [x]) == a + b + [x]
  {
  }

  lemma LinesOfOneMore(postings: seq<Posting>, p: Posting, j: nat)
    ensures LinesOf(postings + [p], j) == LinesOf(postings, j) + (if j == p.journal then [p.line] else [])
  {
    assert (postings + [p])[..|postings|] == postings;
  }

  lemma PostingsForLast(journal: nat, lines: seq<Line>)
    requires lines != []
    ensures PostingsFor(journal, lines)
         == PostingsFor(journal, lines[..|lines| - 1]) + [Posting(journal, lines[|lines| - 1])]
  {
  }

  /** The new journal has the given lines; every other journal keeps its own. */
  lemma {:induction false} LinesOfNew(old_: seq<Posting>, journal: nat, lines: seq<Line>, j: nat)
    ensures LinesOf(old_ + PostingsFor(journal, lines), j)
         == LinesOf(old_, j) + (if j == journal then lines else [])
  {
    if lines == [] {
      assert old_ + PostingsFor(journal, lines) == old_;
    } else {
      hide PostingsFor, LinesOf;
      var rest, last := lines[..|lines| - 1], lines[|lines| - 1];
      var before := old_ + PostingsFor(journal, rest);
      LinesOfNew(old_, journal, rest, j);
      PostingsForLast(journal, lines);
      AppendAssociates(old_, PostingsFor(journal, rest), Posting(journal, last));
      LinesOfOneMore(before, Posting(journal, last), j);
      AppendAssociates(LinesOf(old_, j), rest, last);
      assert lines == rest + [last];
      if j != journal {
        assert LinesOf(old_, j) + [] + [] == LinesOf(old_, j) + [];
      }
    }
  }

  lemma {:induction false} NoLinesYet(postings: seq<Posting>, journal: nat)
    requires forall p | p in postings :: p.journal < journal
    ensures LinesOf(postings, journal) == []
  {
    if postings == [] {
    } else {
      assert postings[|postings| - 1] in postings;
      NoLinesYet(postings[..|postings| - 1], journal);
    }
  }

  // ---------------------------------------------------------------- the mirror loop

  ghost predicate ValidPrefix(p: Posted, n: nat) {
    n <= |p.lines| && forall i | 0 <= i < n :: ValidLine(p.lines[i])
  }

  function NetBefore(book: Book, p: Posted, n: nat, id: string): int
    requires n <= |p.lines|
  {
    if id in book.accounts && id != SYS_CASH then Sum(p.lines[..n], NetOf(id)) else 0
  }

  lemma NetGrows(book: Book, p: Posted, n: nat, id: string)
    requires n < |p.lines|
    ensures NetBefore(book, p, n + 1, id)
         == NetBefore(book, p, n, id) + (if id in book.accounts && id != SYS_CASH then Net(id, p.lines[n]) else 0)
  {
    assert p.lines[..n + 1] == p.lines[..n] + [p.lines[n]];
    SumAppend(p.lines[..n], p.lines[n], NetOf(id));
  }

  /** The mirror loop moves each customer's cached balance by the net of the lines, and no other column. */
  lemma {:induction false} MirrorMovesCache(book: Book, p: Posted, n: nat, id: string)
    requires ValidPrefix(p, n)
    ensures MirrorLines(book, p, n).accounts.Keys == book.accounts.Keys
    ensures id in book.accounts ==>
              MirrorLines(book, p, n).accounts[id]
              == book.accounts[id].(balance := book.accounts[id].balance + NetBefore(book, p, n, id))
  {
    if n > 0 {
      MirrorMovesCache(book, p, n - 1, id);
      NetGrows(book, p, n - 1, id);
      assert ValidLine(p.lines[n - 1]);
    } else {
      assert p.lines[..0] == [];
    }
  }

  lemma LineMovesLog(book: Book, p: Posted, line: Line, id: string)
    requires ValidLine(line) && p.mirror && p.key.Some?
    ensures Sum(MirrorLine(book, p, line).txns, OfAccount(id))
         == Sum(book.txns, OfAccount(id)) + (if id in book.accounts && id != SYS_CASH then Net(id, line) else 0)
    ensures Sum(MirrorLine(book, p, line).txns, LegacyOf(id)) == Sum(book.txns, LegacyOf(id))
  {
    SumAppend(book.txns, MirrorRow(p, line), OfAccount(id));
    SumAppend(book.txns, MirrorRow(p, line), LegacyOf(id));
  }

  /** The log of each account grows by the same net, and the legacy part of it does not grow. */
  lemma {:induction false} MirrorMovesLog(book: Book, p: Posted, n: nat, id: string)
    requires ValidPrefix(p, n) && p.mirror && p.key.Some?
    ensures Sum(MirrorLines(book, p, n).txns, OfAccount(id))
         == Sum(book.txns, OfAccount(id)) + NetBefore(book, p, n, id)
    ensures Sum(MirrorLines(book, p, n).txns, LegacyOf(id)) == Sum(book.txns, LegacyOf(id))
  {
    if n > 0 {
      hide NetBefore, MirrorLine, Net, ValidLine, Sum, OfAccount, LegacyOf;
      var before := MirrorLines(book, p, n - 1);
      MirrorMovesLog(book, p, n - 1, id);
      MirrorKeepsKeys(book, p, n - 1);
      NetGrows(book, p, n - 1, id);
      LineMovesLog(before, p, p.lines[n - 1], id);
    } else {
      assert p.lines[..0] == [];
    }
  }

  lemma {:induction false} MirrorOnlyAppends(book: Book, p: Posted, n: nat)
    requires n <= |p.lines|
    ensures var after := MirrorLines(book, p, n);
            && after.accounts.Keys == book.accounts.Keys
            && book.txns <= after.txns
            && forall t | t in after.txns[|book.txns|..] ::
                 t.account in book.accounts && t.key == p.key && t.createdAt == p.now
  {
    if n == 0 {
    } else {
      MirrorOnlyAppends(book, p, n - 1);
    }
  }

  // ---------------------------------------------------------------- post keeps everything

  lemma PostKeepsAgreement(db: Db, p: Posted)
    requires CachedIsLog(db) && CachedIsLedger(db) && p.mirror && p.key.Some?
    requires PostEffect(db, p).Success?
    ensures CachedIsLog(PostEffect(db, p).value) && CachedIsLedger(PostEffect(db, p).value)
  {
    var after := PostEffect(db, p).value;
    var n := |p.lines|;
    assert p.lines[..n] == p.lines;
    MirrorOnlyAppends(Book(db.accounts, db.txns), p, n);
    forall id | id in after.accounts
      ensures after.accounts[id].balance == Sum(after.txns, OfAccount(id))
      ensures id != SYS_CASH ==>
                after.accounts[id].balance == CustomerBalance(after.postings, id) + Sum(after.txns, LegacyOf(id))
    {
      MirrorMovesCache(Book(db.accounts, db.txns), p, n, id);
      MirrorMovesLog(Book(db.accounts, db.txns), p, n, id);
      NewPostings(db.postings, |db.journals|, p.lines, id);
    }
  }

  lemma PostKeepsDoubleEntry(db: Db, p: Posted)
    requires DoubleEntry(db) && Grounded(db)
    requires PostEffect(db, p).Success?
    ensures DoubleEntry(PostEffect(db, p).value)
    ensures LinesOf(PostEffect(db, p).value.postings, |db.journals|) == p.lines
  {
    var after := PostEffect(db, p).value;
    NoLinesYet(db.postings, |db.journals|);
    forall j: nat | j < |after.journals|
      ensures LinesOf(after.postings, j) == if j == |db.journals| then p.lines else LinesOf(db.postings, j)
    {
      LinesOfNew(db.postings, |db.journals|, p.lines, j);
    }
  }

  lemma PostKeepsUniqueKeys(db: Db, p: Posted)
    requires UniqueKeys(db)
    requires PostEffect(db, p).Success?
    ensures UniqueKeys(PostEffect(db, p).value)
  {
  }

  lemma PostKeepsGrounded(db: Db, p: Posted)
    requires Grounded(db) && (forall line | line in p.lines :: line.account in db.ledgerAccounts)
    requires PostEffect(db, p).Success?
    ensures Grounded(PostEffect(db, p).value)
  {
    var after := PostEffect(db, p).value;
    MirrorOnlyAppends(Book(db.accounts, db.txns), p, |p.lines|);
    forall t | t in after.txns ensures t.account in after.accounts {
      assert after.txns == db.txns + after.txns[|db.txns|..];
    }
  }

  /** Any accepted, mirrored, keyed journal keeps the tables sound — not only the three shapes the bank uses. */
  lemma PostKeepsSound(db: Db, p: Posted)
    requires Sound(db) && p.mirror && p.key.Some?
    requires forall line | line in p.lines :: line.account in db.ledgerAccounts
    requires PostEffect(db, p).Success?
    ensures Sound(PostEffect(db, p).value)
  {
    PostKeepsAgreement(db, p);
    PostKeepsDoubleEntry(db, p);
    PostKeepsUniqueKeys(db, p);
    PostKeepsGrounded(db, p);
  }

  /** A key that already has a journal can never be posted again, whatever the lines. */
  lemma KeyedPostReplays(db: Db, p: Posted, j: nat)
    requires j < |db.journals| && HasText(p.key) && db.journals[j].key == p.key
    ensures PostEffect(db, p).Failure? && PostEffect(db, p).error.IdempotentReplay?
  {
    assert KeyIndex(db.journals, p.key.value).Some?;
  }

  // ---------------------------------------------------------------- closed form of a two-line journal

  predicate Customer(db: Db, id: string) {
    id in db.accounts && id != SYS_CASH
  }

  function Adjusted(accounts: map<string, Account>, id: string, delta: int): map<string, Account>
    requires id in accounts
  {
    accounts[id := accounts[id].(balance := accounts[id].balance + delta)]
  }

  function TransferRows(origin: string, destination: string, amount: int, key: Option<string>, now: int): seq<Txn> {
    [Txn(origin, -amount, TransferOut, Some(destination), key, now),
     Txn(destination, amount, TransferIn, Some(origin), key, now)]
  }

  lemma TransferShape(db: Db, origin: string, destination: string, amount: int, key: Option<string>, now: int)
    requires Customer(db, origin) && Customer(db, destination) && origin != destination
    requires TransferEffect(db, origin, destination, amount, key, now).Success?
    ensures var after := TransferEffect(db, origin, destination, amount, key, now).value;
            && amount > 0
            && after.accounts == Adjusted(Adjusted(db.accounts, origin, -amount), destination, amount)
            && after.txns == db.txns + TransferRows(origin, destination, amount, key, now)
            && after.journals == db.journals + [Journal(TransferEntry, key)]
            && after.sessions == db.sessions && after.holders == db.holders
  {
    var lines := TransferLines(origin, destination, amount);
    var p := Posted(TransferEntry, lines, key, true, now);
    var book := Book(db.accounts, db.txns);
    assert ValidLine(lines[0]);
    var one := MirrorLine(book, p, lines[0]);
    assert MirrorLines(book, p, 1) == one by { assert MirrorLines(book, p, 0) == book; }
    assert MirrorLines(book, p, 2) == MirrorLine(one, p, lines[1]);
    assert OtherParty(lines, origin, 0) == OtherParty(lines, origin, 1) == Some(destination);
    assert OtherParty(lines, destination, 0) == Some(origin);
  }

  lemma GrantShape(db: Db, id: string, amount: int, key: Option<string>, now: int)
    requires Customer(db, id)
    requires WelcomeGrantEffect(db, id, amount, key, now).Success?
    ensures var after := WelcomeGrantEffect(db, id, amount, key, now).value;
            && amount > 0
            && after.accounts == Adjusted(db.accounts, id, amount)
            && after.txns == db.txns + [Txn(id, amount, DemoGrant, None, key, now)]
            && after.journals == db.journals + [Journal(WelcomeGrant, key)]
            && after.sessions == db.sessions && after.holders == db.holders
  {
    var lines := [Line(SYS_CASH, Debit, amount), Line(id, Credit, amount)];
    var p := Posted(WelcomeGrant, lines, key, true, now);
    var book := Book(db.accounts, db.txns);
    assert ValidLine(lines[1]);
    assert MirrorLines(book, p, 1) == book by { assert MirrorLines(book, p, 0) == book; }
    assert MirrorLines(book, p, 2) == MirrorLine(book, p, lines[1]);
  }

  lemma WithdrawShape(db: Db, id: string, amount: int, key: Option<string>, now: int)
    requires Customer(db, id)
    requires WithdrawEffect(db, id, amount, key, now).Success?
    ensures var after := WithdrawEffect(db, id, amount, key, now).value;
            && amount > 0
            && after.accounts == Adjusted(db.accounts, id, -amount)
            && after.txns == db.txns + [Txn(id, -amount, Withdrawal, None, key, now)]
            && after.journals == db.journals + [Journal(WithdrawEntry, key)]
            && after.sessions == db.sessions && after.holders == db.holders
  {
    var lines := [Line(id, Debit, amount), Line(SYS_CASH, Credit, amount)];
    var p := Posted(WithdrawEntry, lines, key, true, now);
    var book := Book(db.accounts, db.txns);
    assert ValidLine(lines[0]);
    var one := MirrorLine(book, p, lines[0]);
    assert MirrorLines(book, p, 1) == one by { assert MirrorLines(book, p, 0) == book; }
    assert MirrorLines(book, p, 2) == one;
  }

  // ---------------------------------------------------------------- conservation

  /** Every posting that belongs to a balanced journal cancels against the others. */
  function NetLine(line: Line): int {
    Net(line.account, line)
  }

  /** The books sum to zero: what customers hold on the ledger is what the cash account paid out. */
  lemma LedgerSumsToZero(db: Db, customers: set<string>)
    requires DoubleEntry(db) && Grounded(db)
    requires customers == db.ledgerAccounts - {SYS_CASH}
    ensures SetSum(customers, LedgerBalance(db)) == -CustomerBalance(db.postings, SYS_CASH)
  {
    var all := customers + {SYS_CASH};
    forall p | p in db.postings ensures SetSum(all, PerItem(PostedTo, p)) == PostingNet(p) {
      forall id ensures PerItem(PostedTo, p)(id) == Net(id, p.line) {
        assert PostedTo(id)(p) == Net(id, p.line);
      }
      SetSumOfOne(all, p.line.account, PerItem(PostedTo, p));
    }
    SumsExchange(all, db.postings, PostedTo, PostingNet);
    PostingsCancel(db.postings, |db.journals|);
    SetSumTakes(all, SYS_CASH, TableTotal(db.postings, PostedTo));
    assert all - {SYS_CASH} == customers;
    forall id ensures CustomerBalance(db.postings, id) == TableTotal(db.postings, PostedTo)(id) {
      BalanceIsNet(db.postings, id);
    }
    SetSumAgrees(customers, LedgerBalance(db), TableTotal(db.postings, PostedTo));
  }

  function LedgerBalance(db: Db): string -> int {
    (id: string) => CustomerBalance(db.postings, id)
  }

  function PostingNet(p: Posting): int {
    NetLine(p.line)
  }

  lemma {:induction false} BalanceIsNet(postings: seq<Posting>, id: string)
    ensures CustomerBalance(postings, id) == Sum(postings, PostedTo(id))
  {
    if postings == [] {
    } else {
      BalanceIsNet(postings[..|postings| - 1], id);
    }
  }

  lemma {:induction false} LinesCancel(lines: seq<Line>)
    ensures Sum(lines, NetLine) == Sum(lines, OnSide(Credit)) - Sum(lines, OnSide(Debit))
  {
    if lines == [] {
    } else {
      LinesCancel(lines[..|lines| - 1]);
    }
  }

  function BelowPart(n: nat): Posting -> int {
    (p: Posting) => if p.journal < n then PostingNet(p) else 0
  }

  lemma {:induction false} OneJournalPart(postings: seq<Posting>, n: nat)
    ensures Sum(postings, BelowPart(n + 1)) == Sum(postings, BelowPart(n)) + Sum(LinesOf(postings, n), NetLine)
  {
    if postings == [] {
    } else {
      var rest, last := postings[..|postings| - 1], postings[|postings| - 1];
      OneJournalPart(rest, n);
      if last.journal == n {
        SumAppend(LinesOf(rest, n), last.line, NetLine);
      }
      assert LinesOf(rest, n) + [] == LinesOf(rest, n);
    }
  }

  lemma {:induction false} PostingsBelowCancel(postings: seq<Posting>, n: nat)
    requires forall j: nat | j < n :: BalancedEntry(LinesOf(postings, j))
    ensures Sum(postings, BelowPart(n)) == 0
  {
    if n == 0 {
      SumOfNothing(postings, BelowPart(0));
    } else {
      PostingsBelowCancel(postings, n - 1);
      OneJournalPart(postings, n - 1);
      LinesCancel(LinesOf(postings, n - 1));
    }
  }

  lemma PostingsCancel(postings: seq<Posting>, n: nat)
    requires forall p | p in postings :: p.journal < n
    requires forall j: nat | j < n :: BalancedEntry(LinesOf(postings, j))
    ensures Sum(postings, PostingNet) == 0
  {
    PostingsBelowCancel(postings, n);
    SumAgrees(postings, PostingNet, BelowPart(n));
  }

  function AmountOf(t: Txn): int {
    t.amount
  }

  function BalanceIn(accounts: map<string, Account>): string -> int {
    (id: string) => if id in accounts then accounts[id].balance else 0
  }

  /** All the money customers see. */
  ghost function TotalCached(db: Db): int {
    SetSum(db.accounts.Keys, BalanceIn(db.accounts))
  }

  /** The cached balances add up to the transaction log. */
  lemma TotalIsLog(db: Db)
    requires CachedIsLog(db) && Grounded(db)
    ensures TotalCached(db) == Sum(db.txns, AmountOf)
  {
    var ids := db.accounts.Keys;
    forall t | t in db.txns ensures SetSum(ids, PerItem(OfAccount, t)) == AmountOf(t) {
      SetSumOfOne(ids, t.account, PerItem(OfAccount, t));
    }
    SumsExchange(ids, db.txns, OfAccount, AmountOf);
    SetSumAgrees(ids, BalanceIn(db.accounts), TableTotal(db.txns, OfAccount));
  }
}
