/** Who pays, who is paid and how much: what a transfer or withdrawal does, and when, in terms of the tables alone. */
module Movements {
  import opened Prelude
  import opened Errors
  import opened Digits
  import opened Tables
  import opened OnboardingAccounts
  import opened Bank
  import opened Steps
  import opened LedgerLaws
  import Ledger
  import Money
  import Recipient
  import TextOrder
  import Transfers
  import Validation

  // ---------------------------------------------------------------- the account that pays

  predicate Mine(db: Db, subject: string, x: string) {
    x in db.accounts && db.accounts[x].owner == Some(subject) && db.accounts[x].checking
  }

  predicate FirstOfMine(db: Db, subject: string, x: string) {
    Mine(db, subject, x)
    && forall other | other in db.accounts && other != x && Mine(db, subject, other) :: Precedes(db.accounts, x, other)
  }

  /** The account a caller pays from: the one it names, which must be its own, or else the first it owns. */
  predicate PaysFrom(db: Db, subject: string, source: Option<string>, x: string) {
    if source.Some? && source.value != "" then x == source.value && Mine(db, subject, x)
    else FirstOfMine(db, subject, x)
  }

  predicate Open(db: Db, x: string) {
    && x in db.accounts && db.accounts[x].active
    && (db.accounts[x].onboarding == Completed || db.accounts[x].onboarding == Skipped)
  }

  lemma FirstIsPrimary(db: Db, subject: string, x: string)
    ensures Primary(db.accounts, subject) == Some(x) <==> FirstOfMine(db, subject, x)
  {
    forall id ensures id in Owned(db.accounts, subject) <==> Mine(db, subject, id) {
    }
    if FirstOfMine(db, subject, x) {
      var y := Primary(db.accounts, subject).value;
      if x != y {
        PrecedesIsTotal(db.accounts, x, y);
      }
    }
  }

  /** The payer of a transfer is exactly the account named, or else the first owned, if it is open. */
  lemma OriginIs(db: Db, subject: string, source: Option<string>, x: string)
    ensures Transfers.Origin(db, subject, source) == Success(x) <==> PaysFrom(db, subject, source, x) && Open(db, x)
  {
    hide Primary, Owned;
    FirstIsPrimary(db, subject, x);
    if source.Some? && source.value != "" {
      OwnedIsMine(db, subject, source.value);
    }
  }

  lemma OwnedIsMine(db: Db, subject: string, x: string)
    ensures x in Owned(db.accounts, subject) <==> Mine(db, subject, x)
  {
  }

  /** The listing order: by number, accounts without one last; then by creation; then by id. */
  lemma ListingOrder(accounts: map<string, Account>, a: string, b: string)
    requires a in accounts && b in accounts
    ensures var x, y := accounts[a], accounts[b];
            && (x.number.Some? && y.number.Some? && x.number != y.number ==>
                  (Precedes(accounts, a, b) <==> x.number.value < y.number.value))
            && (x.number.Some? && y.number.None? ==> Precedes(accounts, a, b) && !Precedes(accounts, b, a))
            && (x.number == y.number && x.createdAt != y.createdAt ==>
                  (Precedes(accounts, a, b) <==> x.createdAt < y.createdAt))
            && (x.number == y.number && x.createdAt == y.createdAt ==>
                  (Precedes(accounts, a, b) <==> TextOrder.Less(a, b)))
  {
  }

  /** In tables that number every owned account once, the first account is the one with the least number. */
  lemma FirstHasLeastNumber(db: Db, subject: string, x: string)
    requires Recipient.NumbersAreUnique(db.accounts)
    requires forall id | id in db.accounts && db.accounts[id].owner.Some? :: db.accounts[id].number.Some?
    ensures FirstOfMine(db, subject, x) <==>
              Mine(db, subject, x)
              && forall other | other in db.accounts && other != x && Mine(db, subject, other) ::
                   db.accounts[x].number.value < db.accounts[other].number.value
  {
    forall other | other in db.accounts && other != x && Mine(db, subject, other) && Mine(db, subject, x)
      ensures Precedes(db.accounts, x, other) <==> db.accounts[x].number.value < db.accounts[other].number.value
    {
      assert db.accounts[x].number != db.accounts[other].number;
    }
  }

  // ---------------------------------------------------------------- the account that is paid

  /** The active account that alone carries the number and digit of a display. */
  predicate AtDisplay(db: Db, display: string, y: string) {
    var parsed := Validation.ParseAccountDisplay(display);
    && parsed.Success? && Active(db, y)
    && forall id | id in db.accounts ::
         db.accounts[id].number == Some(parsed.value.0) && db.accounts[id].digit == Some(parsed.value.1) <==> id == y
  }

  predicate Active(db: Db, y: string) {
    y in db.accounts && db.accounts[y].active
  }

  /** The one active account of the one holder of a document. */
  predicate OfDocument(db: Db, document: string, y: string) {
    && Validation.ValidateDocument(document).Success? && Active(db, y)
    && db.accounts[y].number.Some? && db.accounts[y].digit.Some?
    && db.accounts[y].owner.Some? && db.accounts[y].owner.value in db.holders
    && (forall subject | subject in db.holders ::
          db.holders[subject].document == Some(DigitsOnly(document)) <==> subject == db.accounts[y].owner.value)
    && (forall id | id in db.accounts ::
          Mine(db, db.accounts[y].owner.value, id) && db.accounts[id].active <==> id == y)
  }

  predicate ReceivedBy(db: Db, destination: Transfers.Destination, y: string) {
    match destination
    case ById(id) => y == id && Active(db, y)
    case ByName(account, document) =>
      if account.Some? && account.value != "" then
        (document.Some? ==> document.value == "") && AtDisplay(db, account.value, y)
      else document.Some? && document.value != "" && OfDocument(db, document.value, y)
  }

  lemma SoleMember(items: set<string>, x: string)
    ensures |items| == 1 && Recipient.Sole(items) == x <==> items == {x}
  {
    if items == {x} {
      assert |items| == 1;
      assert Recipient.Sole(items) in items;
    }
  }

  lemma DisplayIs(db: Db, display: string, y: string)
    ensures Recipient.ResolveAccount(db, display) == Success(y) <==> AtDisplay(db, display, y)
  {
    hide Validation.ParseAccountDisplay;
    var parsed := Validation.ParseAccountDisplay(display);
    if parsed.Success? {
      var found := Recipient.AtDisplay(db.accounts, parsed.value.0, parsed.value.1);
      SoleMember(found, y);
      forall id | id in db.accounts
        ensures id in found <==> db.accounts[id].number == Some(parsed.value.0)
                                 && db.accounts[id].digit == Some(parsed.value.1) {
      }
      assert found == {y} <==> y in found && forall id | id in found :: id == y;
    }
  }

  lemma AcceptedDocument(document: string)
    requires Validation.ValidateDocument(document).Success?
    ensures Validation.ValidateDocument(document).value == DigitsOnly(document)
  {
    DigitsOnlyKeepsDigits(DigitsOnly(document));
  }

  lemma DocumentIs(db: Db, document: string, y: string)
    ensures Recipient.ResolveDocument(db, document) == Success(y) <==> OfDocument(db, document, y)
  {
    hide Validation.ValidateDocument, DigitsOnly, Owned;
    if Validation.ValidateDocument(document).Success? {
      AcceptedDocument(document);
      var holders := Recipient.WithDocument(db.holders, DigitsOnly(document));
      if OfDocument(db, document, y) {
        SoleHolder(db, DigitsOnly(document), db.accounts[y].owner.value);
      }
      if |holders| == 1 {
        var subject := Recipient.Sole(holders);
        SoleHolder(db, DigitsOnly(document), subject);
        HolderAccounts(db, subject, y);
        SoleMember(Recipient.ActiveOwned(db.accounts, subject), y);
      }
    }
  }

  lemma SoleHolder(db: Db, document: string, subject: string)
    ensures var holders := Recipient.WithDocument(db.holders, document);
            |holders| == 1 && Recipient.Sole(holders) == subject <==>
              && subject in db.holders
              && forall s | s in db.holders :: db.holders[s].document == Some(document) <==> s == subject
  {
    var holders := Recipient.WithDocument(db.holders, document);
    SoleMember(holders, subject);
    forall s | s in db.holders ensures s in holders <==> db.holders[s].document == Some(document) {
    }
    assert holders == {subject} <==> subject in holders && forall s | s in holders :: s == subject;
  }

  lemma HolderAccounts(db: Db, subject: string, y: string)
    ensures Recipient.ActiveOwned(db.accounts, subject) == {y} <==>
              && Mine(db, subject, y) && db.accounts[y].active
              && forall id | id in db.accounts :: Mine(db, subject, id) && db.accounts[id].active <==> id == y
  {
    var found := Recipient.ActiveOwned(db.accounts, subject);
    assert forall id :: id in found <==> Mine(db, subject, id) && db.accounts[id].active;
    if found == {y} {
      assert y in found;
    } else if Mine(db, subject, y) && db.accounts[y].active {
      assert y in found;
      var other :| other in found && other != y;
    }
  }

  /** The payee of a transfer is exactly the account named by id, by display or by document. */
  lemma DestinationIs(db: Db, destination: Transfers.Destination, y: string)
    ensures Transfers.DestinationOf(db, destination) == Success(y) <==> ReceivedBy(db, destination, y)
  {
    hide AtDisplay, OfDocument, Recipient.ResolveAccount, Recipient.ResolveDocument;
    match destination {
      case ById(_) =>
      case ByName(account, document) =>
        if HasText(account) {
          DisplayIs(db, account.value, y);
        }
        if HasText(document) {
          DocumentIs(db, document.value, y);
        }
    }
  }

  predicate Given(name: Option<string>) {
    name.Some? && name.value != ""
  }

  /** Which refusal a name meets that leads to nobody. */
  lemma RecipientRefusals(db: Db, account: Option<string>, document: Option<string>)
    ensures var r := Recipient.Resolve(db, account, document);
            if Given(account) == Given(document) then r == Failure(OnboardingError(OneRecipientRequired))
            else if Given(account) then
              var parsed := Validation.ParseAccountDisplay(account.value);
              if parsed.Failure? then r == Failure(parsed.error)
              else (forall id | id in db.accounts ::
                      db.accounts[id].number != Some(parsed.value.0) || db.accounts[id].digit != Some(parsed.value.1)
                      || !db.accounts[id].active)
                   ==> r == Failure(AccountNotFound(account.value)) || r == Failure(MultipleResultsFound)
            else
              var checked := Validation.ValidateDocument(document.value);
              if checked.Failure? then r == Failure(checked.error)
              else (forall s | s in db.holders :: db.holders[s].document != Some(DigitsOnly(document.value))) ==>
                     r == Failure(AccountNotFound(DigitsOnly(document.value)))
  {
    hide Validation.ParseAccountDisplay, Validation.ValidateDocument, DigitsOnly;
    if Given(document) && Validation.ValidateDocument(document.value).Success? {
      AcceptedDocument(document.value);
      if forall s | s in db.holders :: db.holders[s].document != Some(DigitsOnly(document.value)) {
        assert Recipient.WithDocument(db.holders, DigitsOnly(document.value)) == {};
      }
    }
    if Given(account) && Validation.ParseAccountDisplay(account.value).Success? {
      var parsed := Validation.ParseAccountDisplay(account.value).value;
      var found := Recipient.AtDisplay(db.accounts, parsed.0, parsed.1);
      if |found| == 1 {
        assert Recipient.Sole(found) in found;
      }
    }
  }

  // ---------------------------------------------------------------- transfers

  /** The two accounts of a transfer that nothing but the amount may still refuse. */
  predicate Between(db: Db, call: Call, x: string, y: string)
    requires call.Transfer?
  {
    && PaysFrom(db, call.subject, call.source, x) && Open(db, x)
    && ReceivedBy(db, call.destination, y) && y in db.accounts && x != y
    && (db.accounts[y].owner.Some? ==> Open(db, y))
  }

  lemma PartiesAre(db: Db, call: Call, x: string, y: string)
    requires call.Transfer?
    ensures Transfers.Parties(db, call.subject, call.source, call.destination) == Success((x, y)) <==>
              Between(db, call, x, y)
  {
    hide PaysFrom, ReceivedBy, Transfers.Origin, Transfers.DestinationOf;
    OriginIs(db, call.subject, call.source, x);
    DestinationIs(db, call.destination, y);
  }

  predicate KeyUsed(db: Db, key: string) {
    exists j :: 0 <= j < |db.journals| && db.journals[j].key == Some(key)
  }

  lemma UsedIff(db: Db, key: string)
    ensures KeyUsed(db, key) <==> Ledger.KeyIndex(db.journals, key).Some?
  {
    if KeyUsed(db, key) {
      var j :| 0 <= j < |db.journals| && db.journals[j].key == Some(key);
    }
  }

  /** Money and records of a posted transfer: x pays exactly what y gets, and everything else stays. */
  ghost predicate TransferPosted(db: Db, after: Db, x: string, y: string, cents: int, key: Option<string>, now: int)
    requires x in db.accounts && y in db.accounts
  {
    && after.accounts == db.accounts[x := db.accounts[x].(balance := db.accounts[x].balance - cents)]
                                    [y := db.accounts[y].(balance := db.accounts[y].balance + cents)]
    && after.txns == db.txns + [Txn(x, -cents, TransferOut, Some(y), key, now),
                                Txn(y, cents, TransferIn, Some(x), key, now)]
    && after.journals == db.journals + [Journal(TransferEntry, key)]
    && after.postings == db.postings + [Posting(|db.journals|, Line(x, Debit, cents)),
                                        Posting(|db.journals|, Line(y, Credit, cents))]
    && after.ledgerAccounts == db.ledgerAccounts + {SYS_CASH, x, y}
    && after.sessions == db.sessions && after.holders == db.holders
  }

  lemma LedgerTransferPosts(db: Db, x: string, y: string, cents: int, key: Option<string>, now: int)
    requires Customer(db, x) && Customer(db, y) && x != y && HasText(key) && cents > 0
    requires !KeyUsed(db, key.value) && db.accounts[x].balance - cents >= db.accounts[x].floor
    ensures Ledger.TransferEffect(db, x, y, cents, key, now).Success?
    ensures TransferPosted(db, Ledger.TransferEffect(db, x, y, cents, key, now).value, x, y, cents, key, now)
  {
    hide Ledger.MirrorLines, Ledger.KeyIndex, KeyUsed;
    UsedIff(db, key.value);
    var debit, credit := Line(x, Debit, cents), Line(y, Credit, cents);
    TwoLines(debit, credit);
    assert Ledger.TransferLines(x, y, cents) == [debit, credit];
    TransferShape(db, x, y, cents, key, now);
    var after := Ledger.TransferEffect(db, x, y, cents, key, now).value;
    assert after.postings == db.postings + Ledger.PostingsFor(|db.journals|, [debit, credit]);
  }

  lemma TwoLines(debit: Line, credit: Line)
    requires debit.side == Debit && credit.side == Credit
    ensures Sum([debit, credit], Ledger.OnSide(Debit)) == debit.amount
    ensures Sum([debit, credit], Ledger.OnSide(Credit)) == credit.amount
  {
    assert [debit, credit] == [] + [debit] + [credit];
    SumAppend([], debit, Ledger.OnSide(Debit));
    SumAppend([] + [debit], credit, Ledger.OnSide(Debit));
    SumAppend([], debit, Ledger.OnSide(Credit));
    SumAppend([] + [debit], credit, Ledger.OnSide(Credit));
  }

  /** The payer can afford it, and the amount is within the limit. */
  predicate Affordable(db: Db, x: string, cents: int, limit: int)
    requires x in db.accounts
  {
    cents <= limit && db.accounts[x].balance - cents >= db.accounts[x].floor
  }

  /** With its parties known: a transfer under a fresh key moves exactly its amount from x to y, and under a used key
      moves nothing; beyond the limit or the payer's funds it fails. */
  lemma TransferBetween(db: Db, cfg: Settings, req: Request, x: string, y: string)
    requires req.call.Transfer? && SYS_CASH !in db.accounts && Between(db, req.call, x, y)
    requires req.call.key.Some? && req.call.key.value != ""
    requires Money.ParsePositiveMoney(req.call.amount).Success?
    ensures var cents, r := Money.ParsePositiveMoney(req.call.amount).value, CallEffect(db, cfg, req);
            if cents > cfg.maxTransfer then r == Failure(LimitExceeded)
            else if db.accounts[x].balance - cents < db.accounts[x].floor then r == Failure(InsufficientFunds(x))
            else if KeyUsed(db, req.call.key.value)
            then r == Success(db.(ledgerAccounts := db.ledgerAccounts + {SYS_CASH, x, y}))
            else r.Success? && TransferPosted(db, r.value, x, y, cents, req.call.key, req.now)
  {
    hide Between, Money.ParsePositiveMoney, Transfers.Parties, TransferPosted, Ledger.KeyIndex, Ledger.MirrorLines,
         KeyUsed;
    PartiesAre(db, req.call, x, y);
    assert x in db.accounts && y in db.accounts && x != y by { BetweenAreAccounts(db, req.call, x, y); }
    var cents := Money.ParsePositiveMoney(req.call.amount).value;
    UsedIff(db, req.call.key.value);
    if Affordable(db, x, cents, cfg.maxTransfer) && !KeyUsed(db, req.call.key.value) {
      LedgerTransferPosts(db, x, y, cents, req.call.key, req.now);
    }
    assert db.ledgerAccounts + {SYS_CASH, x} + {SYS_CASH, y} == db.ledgerAccounts + {SYS_CASH, x, y};
  }

  lemma BetweenAreAccounts(db: Db, call: Call, x: string, y: string)
    requires call.Transfer? && Between(db, call, x, y)
    ensures x in db.accounts && y in db.accounts && x != y
  {
  }

  /** A transfer succeeds exactly when it has a key, a readable amount within the limit, two parties and the funds. */
  lemma TransferSucceedsExactly(db: Db, cfg: Settings, req: Request)
    requires req.call.Transfer? && SYS_CASH !in db.accounts
    ensures CallEffect(db, cfg, req).Success? <==>
              && req.call.key.Some? && req.call.key.value != ""
              && Money.ParsePositiveMoney(req.call.amount).Success?
              && exists x, y :: Between(db, req.call, x, y) && x in db.accounts
                                && Affordable(db, x, Money.ParsePositiveMoney(req.call.amount).value, cfg.maxTransfer)
  {
    hide Between, Money.ParsePositiveMoney, Transfers.Parties;
    var call := req.call;
    forall x, y | HasText(call.key) && Money.ParsePositiveMoney(call.amount).Success? && Between(db, call, x, y)
      ensures x in db.accounts
      ensures CallEffect(db, cfg, req).Success? <==>
                Affordable(db, x, Money.ParsePositiveMoney(call.amount).value, cfg.maxTransfer)
    {
      BetweenAreAccounts(db, call, x, y);
      TransferBetween(db, cfg, req, x, y);
    }
    if CallEffect(db, cfg, req).Success? {
      var parties := Transfers.Parties(db, call.subject, call.source, call.destination).value;
      PartiesAre(db, call, parties.0, parties.1);
    }
  }

  /** Which refusal a named source meets, once key, amount and limit are in order. */
  lemma SourceRefusals(db: Db, cfg: Settings, req: Request, x: string)
    requires req.call.Transfer? && req.call.source == Some(x) && x != ""
    requires req.call.key.Some? && req.call.key.value != ""
    requires Money.ParsePositiveMoney(req.call.amount).Success?
    requires Money.ParsePositiveMoney(req.call.amount).value <= cfg.maxTransfer
    ensures var r := CallEffect(db, cfg, req);
            && (x !in db.accounts || !db.accounts[x].checking ==> r == Failure(AccountNotFound(x)))
            && (x in db.accounts && db.accounts[x].checking && db.accounts[x].owner != Some(req.call.subject) ==>
                  r == Failure(ForbiddenAccountAccess(x)))
            && (Mine(db, req.call.subject, x) && !db.accounts[x].active ==> r == Failure(ForbiddenAccountAccess(x)))
            && (Mine(db, req.call.subject, x) && db.accounts[x].active && !Open(db, x) ==>
                  r == Failure(OnboardingError(OnboardingIncomplete)))
  {
    hide Money.ParsePositiveMoney, Transfers.DestinationOf, Transfers.SendEffect;
  }

  /** Which refusal comes first otherwise: no key, no amount, over the limit, no account; then the destination's. */
  lemma OtherTransferRefusals(db: Db, cfg: Settings, req: Request)
    requires req.call.Transfer?
    ensures var call, r := req.call, CallEffect(db, cfg, req);
            var amount := Money.ParsePositiveMoney(call.amount);
            if call.key.None? || call.key.value == "" then r == Failure(OnboardingError(KeyRequired))
            else if amount.Failure? then r == Failure(amount.error)
            else if amount.value > cfg.maxTransfer then r == Failure(LimitExceeded)
            else
              && (call.source.None? && (forall x :: !Mine(db, call.subject, x)) ==>
                    r == Failure(OnboardingError(OnboardingIncomplete)))
              && (forall x | PaysFrom(db, call.subject, call.source, x) && Open(db, x) && call.destination.ById? ::
                    var y := call.destination.id;
                    if !Active(db, y) then r == Failure(AccountNotFound(y))
                    else if x == y then r == Failure(SameAccountTransfer)
                    else db.accounts[y].owner.Some? && !Open(db, y) ==>
                           r == Failure(OnboardingError(OnboardingIncomplete)))
  {
    hide Money.ParsePositiveMoney, Transfers.SendEffect, Transfers.Origin, PaysFrom, Mine, Recipient.Resolve;
    var call := req.call;
    forall x | PaysFrom(db, call.subject, call.source, x) && Open(db, x)
      ensures Transfers.Origin(db, call.subject, call.source) == Success(x) {
      OriginIs(db, call.subject, call.source, x);
    }
    if call.source.None? && forall x :: !Mine(db, call.subject, x) {
      NobodyPays(db, call.subject);
    }
  }

  lemma NobodyPays(db: Db, subject: string)
    requires forall x :: !Mine(db, subject, x)
    ensures Transfers.Origin(db, subject, None) == Failure(OnboardingError(OnboardingIncomplete))
  {
    assert forall x | x in Owned(db.accounts, subject) :: Mine(db, subject, x);
    assert Owned(db.accounts, subject) == {};
  }

  // ---------------------------------------------------------------- withdrawals

  /** The key a withdrawal is filed under: the client's, or one made of the subject and the request's id. */
  function FiledUnder(subject: string, requestId: Option<string>, key: Option<string>): string {
    if key.Some? && key.value != "" then key.value
    else "withdraw:" + subject + ":" + (match requestId case Some(id) => id case None => "None")
  }

  lemma WithdrawKeyIs(subject: string, requestId: Option<string>, key: Option<string>)
    ensures Transfers.WithdrawKey(subject, requestId, key) == FiledUnder(subject, requestId, key)
  {
  }

  /** Requests of one subject without a client key are told apart by their ids. */
  lemma KeylessKeysExactly(subject: string, r1: string, r2: string)
    ensures Transfers.WithdrawKey(subject, Some(r1), None) == Transfers.WithdrawKey(subject, Some(r2), None) <==>
              r1 == r2
  {
    var front := "withdraw:" + subject + ":";
    assert Transfers.WithdrawKey(subject, Some(r1), None)[|front|..] == r1;
    assert Transfers.WithdrawKey(subject, Some(r2), None)[|front|..] == r2;
  }

  /** Those of two subjects too, when neither name holds a colon. */
  lemma SubjectsKeysDiffer(a: string, b: string, r1: string, r2: string)
    requires ':' !in a && ':' !in b
    ensures Transfers.WithdrawKey(a, Some(r1), None) == Transfers.WithdrawKey(b, Some(r2), None) <==> a == b && r1 == r2
  {
    var x, y := Transfers.WithdrawKey(a, Some(r1), None), Transfers.WithdrawKey(b, Some(r2), None);
    assert x[9..] == a + ":" + r1 && y[9..] == b + ":" + r2;
    if x == y {
      var rest := x[9..];
      assert rest[|a|] == ':' && rest[..|a|] == a && rest[|b|] == ':' && rest[..|b|] == b;
      BeforeTheColon(rest, |a|, b);
      BeforeTheColon(rest, |b|, a);
      assert rest[|a| + 1..] == r1 && rest[|b| + 1..] == r2;
    }
  }

  lemma BeforeTheColon(s: string, at: nat, front: string)
    requires at < |s| && s[at] == ':' && ':' !in front && |front| <= |s| && s[..|front|] == front
    ensures |front| <= at
  {
    assert forall i | 0 <= i < |front| :: s[i] == front[i];
  }

  /** With a colon in the name two subjects can share a keyless key. */
  lemma ColonsCollide(a: string, b: string, r: string)
    ensures Transfers.WithdrawKey(a + ":" + b, Some(r), None) == Transfers.WithdrawKey(a, Some(b + ":" + r), None)
  {
    assert "withdraw:" + (a + ":" + b) + ":" + r == "withdraw:" + a + ":" + (b + ":" + r);
  }

  /** Money and records of a posted withdrawal. */
  ghost predicate WithdrawalPosted(db: Db, after: Db, x: string, cents: int, key: string, now: int)
    requires x in db.accounts
  {
    && after.accounts == db.accounts[x := db.accounts[x].(balance := db.accounts[x].balance - cents)]
    && after.txns == db.txns + [Txn(x, -cents, Withdrawal, None, Some(key), now)]
    && after.journals == db.journals + [Journal(WithdrawEntry, Some(key))]
    && after.postings == db.postings + [Posting(|db.journals|, Line(x, Debit, cents)),
                                        Posting(|db.journals|, Line(SYS_CASH, Credit, cents))]
    && after.ledgerAccounts == db.ledgerAccounts + {SYS_CASH, x}
    && after.sessions == db.sessions && after.holders == db.holders
  }

  lemma LedgerWithdrawalPosts(db: Db, x: string, cents: int, key: string, now: int)
    requires Customer(db, x) && key != "" && cents > 0
    requires !KeyUsed(db, key) && db.accounts[x].balance - cents >= db.accounts[x].floor
    ensures Ledger.WithdrawEffect(db, x, cents, Some(key), now).Success?
    ensures WithdrawalPosted(db, Ledger.WithdrawEffect(db, x, cents, Some(key), now).value, x, cents, key, now)
  {
    hide Ledger.MirrorLines, Ledger.KeyIndex, KeyUsed;
    UsedIff(db, key);
    var debit, credit := Line(x, Debit, cents), Line(SYS_CASH, Credit, cents);
    TwoLines(debit, credit);
    WithdrawShape(db, x, cents, Some(key), now);
    var after := Ledger.WithdrawEffect(db, x, cents, Some(key), now).value;
    assert after.postings == db.postings + Ledger.PostingsFor(|db.journals|, [debit, credit]);
  }

  /** A withdrawal from the caller's first account debits exactly its amount under a fresh key; the limit, a closed or
      unfinished account, missing funds and a used key refuse it, in this order. */
  lemma WithdrawalFrom(db: Db, cfg: Settings, req: Request, x: string)
    requires req.call.Withdraw? && SYS_CASH !in db.accounts && FirstOfMine(db, req.call.subject, x)
    requires Money.ParsePositiveMoney(req.call.amount).Success?
    ensures var cents, r := Money.ParsePositiveMoney(req.call.amount).value, CallEffect(db, cfg, req);
            var key := FiledUnder(req.call.subject, req.call.requestId, req.call.key);
            if cents > cfg.maxWithdraw then r == Failure(LimitExceeded)
            else if !db.accounts[x].active then r == Failure(ForbiddenAccountAccess(x))
            else if !Open(db, x) then r == Failure(OnboardingError(OnboardingIncomplete))
            else if db.accounts[x].balance - cents < db.accounts[x].floor then r == Failure(InsufficientFunds(x))
            else if KeyUsed(db, key)
            then r.Failure? && r.error.IdempotentReplay? && r.error.journal < |db.journals|
                 && db.journals[r.error.journal].key == Some(key)
            else r.Success? && WithdrawalPosted(db, r.value, x, cents, key, req.now)
  {
    hide Money.ParsePositiveMoney, Primary, Owned, WithdrawalPosted, Ledger.KeyIndex, Ledger.MirrorLines, KeyUsed,
         FiledUnder, Transfers.WithdrawKey, FirstOfMine;
    FirstIsPrimary(db, req.call.subject, x);
    FirstIsMine(db, req.call.subject, x);
    var cents := Money.ParsePositiveMoney(req.call.amount).value;
    var key := FiledUnder(req.call.subject, req.call.requestId, req.call.key);
    WithdrawKeyIs(req.call.subject, req.call.requestId, req.call.key);
    WithdrawKeyIsText(req.call.subject, req.call.requestId, req.call.key);
    UsedIff(db, key);
    if Open(db, x) && Affordable(db, x, cents, cfg.maxWithdraw) && !KeyUsed(db, key) {
      LedgerWithdrawalPosts(db, x, cents, key, req.now);
    }
  }

  /** A withdrawal succeeds exactly when its amount is readable and within the limit, the caller's first account is open
      and can afford it, and no journal carries its key. */
  lemma WithdrawalSucceedsExactly(db: Db, cfg: Settings, req: Request)
    requires req.call.Withdraw? && SYS_CASH !in db.accounts
    ensures CallEffect(db, cfg, req).Success? <==>
              && Money.ParsePositiveMoney(req.call.amount).Success?
              && !KeyUsed(db, FiledUnder(req.call.subject, req.call.requestId, req.call.key))
              && exists x :: FirstOfMine(db, req.call.subject, x) && Open(db, x)
                             && Affordable(db, x, Money.ParsePositiveMoney(req.call.amount).value, cfg.maxWithdraw)
  {
    hide Money.ParsePositiveMoney, Primary, Owned, FirstOfMine, FiledUnder, KeyUsed, Transfers.WithdrawKey,
         Ledger.WithdrawEffect;
    var subject := req.call.subject;
    if Money.ParsePositiveMoney(req.call.amount).Success? {
      forall x | FirstOfMine(db, subject, x)
        ensures x in db.accounts
        ensures CallEffect(db, cfg, req).Success? <==>
                  && !KeyUsed(db, FiledUnder(subject, req.call.requestId, req.call.key)) && Open(db, x)
                  && Affordable(db, x, Money.ParsePositiveMoney(req.call.amount).value, cfg.maxWithdraw)
      {
        FirstIsMine(db, subject, x);
        WithdrawalFrom(db, cfg, req, x);
      }
      forall x ensures Primary(db.accounts, subject) == Some(x) <==> FirstOfMine(db, subject, x) {
        FirstIsPrimary(db, subject, x);
      }
      if Primary(db.accounts, subject).Some? {
        assert FirstOfMine(db, subject, Primary(db.accounts, subject).value);
      }
    }
  }

  lemma FirstIsMine(db: Db, subject: string, x: string)
    requires FirstOfMine(db, subject, x)
    ensures x in db.accounts
  {
  }
}
