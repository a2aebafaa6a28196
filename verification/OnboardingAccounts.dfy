/** Which checking account a call targets, and how draft accounts and their numbers are issued. */
module OnboardingAccounts {
  import opened Prelude
  import opened Errors
  import opened Tables
  import opened TextOrder

  function Owned(accounts: map<string, Account>, subject: string): set<string> {
    set id | id in accounts && accounts[id].owner == Some(subject) && accounts[id].checking
  }

  /** `order_by(account_number asc nulls last, created_at asc, id asc)` */
  predicate Precedes(accounts: map<string, Account>, a: string, b: string)
    requires a in accounts && b in accounts
  {
    var x, y := accounts[a], accounts[b];
    if x.number != y.number then x.number.Some? && (y.number.None? || x.number.value < y.number.value)
    else if x.createdAt != y.createdAt then x.createdAt < y.createdAt
    else Less(a, b)
  }

  lemma PrecedesIsTotal(accounts: map<string, Account>, a: string, b: string)
    requires a in accounts && b in accounts && a != b
    ensures Precedes(accounts, a, b) <==> !Precedes(accounts, b, a)
  {
    LessIsTotal(a, b);
    LessIsStrict(a, b);
    LessIsStrict(b, a);
  }

  lemma PrecedesIsTransitive(accounts: map<string, Account>, a: string, b: string, c: string)
    requires a in accounts && b in accounts && c in accounts
    requires Precedes(accounts, a, b) && Precedes(accounts, b, c)
    ensures Precedes(accounts, a, c)
  {
    if Less(a, b) && Less(b, c) {
      LessIsTransitive(a, b, c);
    }
  }

  predicate IsFirst(accounts: map<string, Account>, ids: set<string>, id: string)
    requires ids <= accounts.Keys
  {
    id in ids && forall other | other in ids && other != id :: Precedes(accounts, id, other)
  }

  lemma {:induction false} FirstExists(accounts: map<string, Account>, ids: set<string>)
    requires ids <= accounts.Keys && ids != {}
    ensures exists id :: IsFirst(accounts, ids, id)
    decreases |ids|
  {
    var x :| x in ids;
    if ids == {x} {
      assert IsFirst(accounts, ids, x);
    } else {
      var rest := ids - {x};
      assert rest == {} ==> ids == {x};
      FirstExists(accounts, rest);
      var y :| IsFirst(accounts, rest, y);
      PrecedesIsTotal(accounts, x, y);
      if Precedes(accounts, x, y) {
        forall other | other in ids && other != x ensures Precedes(accounts, x, other) {
          if other != y { PrecedesIsTransitive(accounts, x, y, other); }
        }
        assert IsFirst(accounts, ids, x);
      } else {
        assert IsFirst(accounts, ids, y);
      }
    }
  }

  /** First row of `list_owned_checking`. */
  function Primary(accounts: map<string, Account>, subject: string): (r: Option<string>)
    ensures r.None? <==> Owned(accounts, subject) == {}
    ensures r.Some? ==> IsFirst(accounts, Owned(accounts, subject), r.value)
  {
    var ids := Owned(accounts, subject);
    if ids == {} then None
    else
      FirstExists(accounts, ids);
      assert forall a, b | IsFirst(accounts, ids, a) && IsFirst(accounts, ids, b) :: a == b by {
        forall a, b | IsFirst(accounts, ids, a) && IsFirst(accounts, ids, b) ensures a == b {
          if a != b { PrecedesIsTotal(accounts, a, b); }
        }
      }
      var id :| id in ids && IsFirst(accounts, ids, id);
      Some(id)
  }

  /** `get_owned_checking` */
  function GetOwned(accounts: map<string, Account>, subject: string, id: string): (r: Result<string, Error>)
    ensures r.Success? <==> id in Owned(accounts, subject)
    ensures r.Success? ==> r.value == id
  {
    if id !in accounts || !accounts[id].checking then Failure(AccountNotFound(id))
    else if accounts[id].owner != Some(subject) then Failure(ForbiddenAccountAccess(id))
    else Success(id)
  }

  // ---------------------------------------------------------------- account numbers

  function IssuedNumbers(accounts: map<string, Account>): set<nat> {
    set id | id in accounts && accounts[id].number.Some? :: accounts[id].number.value
  }

  lemma {:induction false} GreatestExists(numbers: set<nat>)
    requires numbers != {}
    ensures exists n :: n in numbers && forall m | m in numbers :: m <= n
    decreases |numbers|
  {
    var x :| x in numbers;
    var rest := numbers - {x};
    if rest == {} {
      assert numbers == {x};
    } else {
      GreatestExists(rest);
      var y :| y in rest && forall m | m in rest :: m <= y;
      assert forall m | m in numbers :: m == x || m in rest;
      assert (if x < y then y else x) in numbers;
    }
  }

  function Greatest(numbers: set<nat>, default: int): (r: int)
    ensures numbers == {} ==> r == default
    ensures forall n | n in numbers :: n <= r
    ensures r == default || r in numbers
  {
    if numbers == {} then default
    else
      GreatestExists(numbers);
      var n :| n in numbers && forall m | m in numbers :: m <= n;
      n
  }

  /** `_next_number`: one past every stored number and every number this session already issued. */
  function NextNumber(accounts: map<string, Account>, pending: Option<nat>, start: nat): (n: nat)
    ensures n >= start
    ensures forall id | id in accounts && accounts[id].number.Some? :: accounts[id].number.value < n
    ensures pending.Some? ==> pending.value < n
    ensures n == start || pending == Some(n - 1) || exists id :: id in accounts && accounts[id].number == Some(n - 1)
  {
    var current := Greatest(IssuedNumbers(accounts), start - 1);
    var issued: int := if pending.Some? then pending.value else start - 1;
    var number := (if current > issued then current else issued) + 1;
    assert forall id | id in accounts && accounts[id].number.Some? ::
             accounts[id].number.value in IssuedNumbers(accounts);
    if number < start then start else number
  }

  class AccountNumberGenerator {
    const session: Session
    const start: nat

    constructor (session: Session, start: nat)
      ensures this.session == session && this.start == start
    {
      this.session := session;
      this.start := start;
    }

    /** Numbers handed out in one session grow even before the rows that carry them are stored. */
    method Next() returns (number: nat)
      modifies session`pendingNumber
      ensures number == NextNumber(session.accounts, old(session.pendingNumber), start)
      ensures session.pendingNumber == Some(number)
    {
      var current := Greatest(IssuedNumbers(session.accounts), start - 1);
      var pending: int := start - 1;
      if session.pendingNumber.Some? { pending := session.pendingNumber.value; }
      var next := (if current > pending then current else pending) + 1;
      if next < start { next := start; }
      number := next;
      session.pendingNumber := Some(number);
    }
  }

  // ---------------------------------------------------------------- drafts

  /** The values a call draws from outside: a fresh id and a random check digit. */
  datatype Draw = Draw(id: string, digit: nat)

  function DraftAccount(subject: string, number: nat, digit: nat, now: int): Account {
    Account(Some(subject), true, true, InProgress, Some(number), Some(digit), 0, 0, now)
  }

  /** `create_draft_checking`; a repeated primary key is refused by the database. */
  function DraftEffect(db: Db, cfg: Settings, subject: string, draw: Draw, now: int): Result<Db, Error> {
    if draw.id in db.accounts then Failure(IntegrityError)
    else
      var number := NextNumber(db.accounts, None, cfg.numberStart);
      Success(db.(accounts := db.accounts[draw.id := DraftAccount(subject, number, draw.digit, now)]))
  }

  /** `resolve_onboarding_account(create_if_missing=True)`: the tables afterwards and the account targeted. */
  function ResolveEffect(db: Db, cfg: Settings, subject: string, id: Option<string>, draw: Draw, now: int)
    : (r: Result<(Db, string), Error>)
    ensures r.Success? ==> r.value.1 in Owned(r.value.0.accounts, subject)
  {
    if HasText(id) then
      var found :- GetOwned(db.accounts, subject, id.value);
      Success((db, found))
    else if Owned(db.accounts, subject) != {} then Failure(OnboardingError(AccountIdRequired))
    else
      var created :- DraftEffect(db, cfg, subject, draw, now);
      Success((created, draw.id))
  }

  method CreateDraft(session: Session, cfg: Settings, subject: string, draw: Draw) returns (r: Result<string, Error>)
    requires session.pendingNumber == None
    modifies session`accounts, session`pendingNumber
    ensures match DraftEffect(old(session.Tables()), cfg, subject, draw, session.now)
            case Success(db) => r == Success(draw.id) && session.Tables() == db
            case Failure(e) => r == Failure(e) && session.Tables() == old(session.Tables())
  {
    var generator := new AccountNumberGenerator(session, cfg.numberStart);
    var number := generator.Next();
    if draw.id in session.accounts {
      return Failure(IntegrityError);
    }
    session.accounts := session.accounts[draw.id := DraftAccount(subject, number, draw.digit, session.now)];
    r := Success(draw.id);
  }

  method Resolve(session: Session, cfg: Settings, subject: string, id: Option<string>, draw: Draw)
    returns (r: Result<string, Error>)
    requires session.pendingNumber == None
    modifies session`accounts, session`pendingNumber
    ensures match ResolveEffect(old(session.Tables()), cfg, subject, id, draw, session.now)
            case Success(target) => r == Success(target.1) && session.Tables() == target.0
            case Failure(e) => r == Failure(e)
    ensures r.Success? && session.pendingNumber.Some? ==>
              session.accounts[r.value].number.Some? && session.accounts[r.value].digit.Some?
  {
    if HasText(id) {
      r := GetOwned(session.accounts, subject, id.value);
      return;
    }
    if Owned(session.accounts, subject) != {} {
      return Failure(OnboardingError(AccountIdRequired));
    }
    r := CreateDraft(session, cfg, subject, draw);
  }
}
