/** Finding the account a transfer names by display number or by document. */
module Recipient {
  import opened Prelude
  import opened Errors
  import opened Tables
  import opened OnboardingAccounts
  import Digits
  import Validation

  function Sole<T(==)>(items: set<T>): (item: T)
    requires |items| == 1
    ensures items == {item}
  {
    assert forall a, b | a in items && b in items :: a == b by {
      forall a, b | a in items && b in items ensures a == b {
        assert |items - {a}| == 0;
      }
    }
    var item :| item in items;
    assert items == {item};
    item
  }

  function AtDisplay(accounts: map<string, Account>, number: nat, digit: nat): set<string> {
    set id | id in accounts && accounts[id].number == Some(number) && accounts[id].digit == Some(digit)
  }

  function ActiveOwned(accounts: map<string, Account>, subject: string): set<string> {
    set id | id in Owned(accounts, subject) && accounts[id].active
  }

  function WithDocument(holders: map<string, Holder>, document: string): set<string> {
    set subject | subject in holders && holders[subject].document == Some(document)
  }

  function ResolveAccount(db: Db, display: string): Result<string, Error> {
    var (number, digit) :- Validation.ParseAccountDisplay(display);
    var found := AtDisplay(db.accounts, number, digit);
    if |found| > 1 then Failure(MultipleResultsFound)
    else if |found| == 0 || !db.accounts[Sole(found)].active then Failure(AccountNotFound(display))
    else Success(Sole(found))
  }

  function ResolveDocument(db: Db, document: string): Result<string, Error> {
    var cleaned :- Validation.ValidateDocument(document);
    var holders := WithDocument(db.holders, cleaned);
    if |holders| > 1 then Failure(MultipleResultsFound)
    else if |holders| == 0 then Failure(AccountNotFound(cleaned))
    else
      var accounts := ActiveOwned(db.accounts, Sole(holders));
      if |accounts| == 0 then Failure(AccountNotFound(cleaned))
      else if |accounts| > 1 then Failure(OnboardingError(AmbiguousDocument))
      else
        var id := Sole(accounts);
        if db.accounts[id].number.None? || db.accounts[id].digit.None? then Failure(AccountNotFound(cleaned))
        else Success(id)
  }

  /** `RecipientResolver.resolve`: exactly one of the two names must be given. */
  function Resolve(db: Db, account: Option<string>, document: Option<string>): (r: Result<string, Error>)
    ensures r.Success? ==> r.value in db.accounts && db.accounts[r.value].active
  {
    if HasText(account) == HasText(document) then Failure(OnboardingError(OneRecipientRequired))
    else if HasText(account) then ResolveAccount(db, account.value)
    else ResolveDocument(db, document.value)
  }

  ghost predicate NumbersAreUnique(accounts: map<string, Account>) {
    forall a, b | a in accounts && b in accounts && a != b && accounts[a].number.Some? ::
      accounts[a].number != accounts[b].number
  }

  /** The display of an active account finds that account, with the hyphen or without it. */
  lemma DisplayFindsItsAccount(db: Db, id: string)
    requires NumbersAreUnique(db.accounts)
    requires id in db.accounts && db.accounts[id].active
    requires db.accounts[id].number.Some? && db.accounts[id].digit.Some? && db.accounts[id].digit.value < 10
    ensures var number, digit := db.accounts[id].number.value, db.accounts[id].digit.value;
            && Resolve(db, Some(Validation.FormatAccountDisplay(number, digit)), None) == Success(id)
            && Resolve(db, Some(Digits.ToText(number) + Digits.ToText(digit)), None) == Success(id)
  {
    var number, digit := db.accounts[id].number.value, db.accounts[id].digit.value;
    Validation.DisplayRoundTrip(number, digit);
    Validation.DisplayWithoutHyphen(number, digit);
    var found := AtDisplay(db.accounts, number, digit);
    forall other | other in found ensures other == id {
      assert db.accounts[other].number == db.accounts[id].number;
    }
    assert found == {id};
  }

  /** And no other account: whatever a display resolves to carries the number and digit it spells. */
  lemma DisplayFindsNoOther(db: Db, display: string)
    requires Resolve(db, Some(display), None).Success?
    ensures var id := Resolve(db, Some(display), None).value;
            && Validation.ParseAccountDisplay(display).Success?
            && db.accounts[id].number == Some(Validation.ParseAccountDisplay(display).value.0)
            && db.accounts[id].digit == Some(Validation.ParseAccountDisplay(display).value.1)
  {
    var (number, digit) := Validation.ParseAccountDisplay(display).value;
    var found := AtDisplay(db.accounts, number, digit);
    assert Sole(found) in found;
  }
}
