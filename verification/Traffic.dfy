/** Any number of requests interleaved over one store and one bank, with lost records and storage errors anywhere. */
module Traffic {
  import opened Prelude
  import opened Tables
  import opened RequestKeys
  import opened Idempotency
  import opened Middleware
  import opened MoneyLaws
  import opened ReplayLaws
  import opened LedgerLaws
  import opened Steps
  import Statements
  import Bank

  /** One arrival: its key if it is guarded, what its handler will ask of the bank, and when it took its lock. */
  datatype Visit = Visit(key: Option<RequestKey>, call: Bank.Call, pc: Pc, lockedAt: int)

  /** One execution of a handler that reached the bank, and whether its transaction committed. */
  datatype Served = Served(visit: nat, request: Bank.Request, committed: bool)

  datatype World = World(entries: Entries, now: int, visits: map<nat, Visit>, db: Db, served: seq<Served>)

  const QUIET := World(map[], 0, map[], EMPTY, [])

  datatype Move =
    | Arrive(visit: nat, key: Option<RequestKey>, call: Bank.Call)
    | StoreCall(visit: nat, fault: Fault)
    /** The handler of a visit; `applied` is whether its transaction was attempted before it answered or died. */
    | Handle(visit: nat, outcome: Outcome, applied: bool)
    | Wait(until: int)
    /** The store loses a record before its time. */
    | Lose(lost: RequestKey)

  function Moved(w: World, p: nat, pc: Pc): map<nat, Visit>
    requires p in w.visits
  {
    w.visits[p := w.visits[p].(pc := pc)]
  }

  function CallStore(w: World, p: nat, fault: Fault, ttl: Ttl): World
    requires p in w.visits && w.visits[p].key.Some? && AtStore(w.visits[p].pc)
  {
    var v := w.visits[p];
    var (pc, entries) := Step(v.pc, v.key.value, w.entries, w.now, fault, ttl);
    w.(entries := entries,
       visits := w.visits[p := v.(pc := pc, lockedAt := if v.pc.Locking? then w.now else v.lockedAt)])
  }

  function RunHandler(w: World, cfg: Settings, p: nat, outcome: Outcome, applied: bool): World
    requires p in w.visits
  {
    var v := w.visits[p];
    var moved := w.(visits := Moved(w, p, if v.key.Some? then AfterHandler(outcome) else Finished(Direct(outcome))));
    if applied
    then var req := Bank.Request(v.call, w.now);
         moved.(db := Bank.Apply(w.db, cfg, req),
                served := w.served + [Served(p, req, Bank.CallEffect(w.db, cfg, req).Success?)])
    else moved
  }

  /** A move that is not possible changes nothing. */
  function Next(w: World, cfg: Settings, ttl: Ttl, move: Move): World {
    match move
    case Arrive(p, key, call) =>
      if p in w.visits then w
      else w.(visits := w.visits[p := Visit(key, call, if key.Some? then Reading else Handling, w.now)])
    case StoreCall(p, fault) =>
      if p in w.visits && w.visits[p].key.Some? && AtStore(w.visits[p].pc) then CallStore(w, p, fault, ttl) else w
    case Handle(p, outcome, applied) =>
      if p in w.visits && w.visits[p].pc.Handling? then RunHandler(w, cfg, p, outcome, applied) else w
    case Wait(until) => if until >= w.now then w.(now := until) else w
    case Lose(key) => w.(entries := Without(w.entries, key))
  }

  /** Where any sequence of moves leads. */
  function After(cfg: Settings, ttl: Ttl, moves: seq<Move>): World {
    if moves == [] then QUIET else Next(After(cfg, ttl, moves[..|moves| - 1]), cfg, ttl, moves[|moves| - 1])
  }

  // ---------------------------------------------------------------- at most once, whatever happens

  function Requests(served: seq<Served>): (r: seq<Bank.Request>)
    ensures |r| == |served| && forall i | 0 <= i < |r| :: r[i] == served[i].request
  {
    seq(|served|, i requires 0 <= i < |served| => served[i].request)
  }

  ghost predicate ProperMoves(moves: seq<Move>) {
    forall m | m in moves :: m.Arrive? ==> Proper(m.call)
  }

  /** The bank is exactly where running the served requests in order leads; each visit was served at most once. */
  ghost predicate Faithful(w: World, cfg: Settings) {
    && w.db == Bank.Run(EMPTY, cfg, Requests(w.served))
    && (forall p | p in w.visits :: Proper(w.visits[p].call))
    && (forall i | 0 <= i < |w.served| ::
          var s := w.served[i];
          s.visit in w.visits && !NotYetServed(w.visits[s.visit].pc) && s.request.call == w.visits[s.visit].call
          && s.request.now <= w.now)
    && (forall i, j | 0 <= i < j < |w.served| ::
          w.served[i].visit != w.served[j].visit && w.served[i].request.now <= w.served[j].request.now)
  }

  predicate NotYetServed(pc: Pc) {
    pc.Reading? || pc.Clearing? || pc.Locking? || pc.Handling?
  }

  lemma ServingIsFaithful(w: World, cfg: Settings, p: nat, outcome: Outcome)
    requires Faithful(w, cfg) && p in w.visits && w.visits[p].pc.Handling?
    ensures Faithful(RunHandler(w, cfg, p, outcome, true), cfg)
  {
    hide Proper, Bank.Apply;
    var after := RunHandler(w, cfg, p, outcome, true);
    var req := Bank.Request(w.visits[p].call, w.now);
    assert Requests(after.served) == Requests(w.served) + [req];
    assert Requests(after.served)[..|w.served|] == Requests(w.served);
    assert !NotYetServed(after.visits[p].pc);
  }

  lemma StoreCallIsFaithful(w: World, cfg: Settings, p: nat, fault: Fault, ttl: Ttl)
    requires Faithful(w, cfg) && p in w.visits && w.visits[p].key.Some? && AtStore(w.visits[p].pc)
    ensures Faithful(CallStore(w, p, fault, ttl), cfg)
  {
    hide Bank.Run, Proper;
    assert !NotYetServed(w.visits[p].pc) ==> !NotYetServed(CallStore(w, p, fault, ttl).visits[p].pc);
  }

  lemma StepIsFaithful(w: World, cfg: Settings, ttl: Ttl, move: Move)
    requires Faithful(w, cfg) && (move.Arrive? ==> Proper(move.call))
    ensures Faithful(Next(w, cfg, ttl, move), cfg)
  {
    hide CallStore, Bank.Run, Proper;
    match move {
      case Handle(p, outcome, applied) =>
        if applied && p in w.visits && w.visits[p].pc.Handling? {
          ServingIsFaithful(w, cfg, p, outcome);
        }
      case StoreCall(p, fault) =>
        if p in w.visits && w.visits[p].key.Some? && AtStore(w.visits[p].pc) {
          StoreCallIsFaithful(w, cfg, p, fault, ttl);
        }
      case _ =>
    }
  }

  lemma {:induction false} AlwaysFaithful(cfg: Settings, ttl: Ttl, moves: seq<Move>)
    requires ProperMoves(moves)
    ensures Faithful(After(cfg, ttl, moves), cfg)
  {
    if moves == [] {
      assert Requests([]) == [];
    } else {
      AlwaysFaithful(cfg, ttl, moves[..|moves| - 1]);
      StepIsFaithful(After(cfg, ttl, moves[..|moves| - 1]), cfg, ttl, moves[|moves| - 1]);
    }
  }

  lemma ServedAreProper(w: World, cfg: Settings)
    requires Faithful(w, cfg)
    ensures AllProper(Requests(w.served)) && Statements.InTimeOrder(Requests(w.served))
  {
    forall req | req in Requests(w.served) ensures Proper(req.call) {
      var i :| 0 <= i < |w.served| && Requests(w.served)[i] == req;
      assert Proper(w.visits[w.served[i].visit].call);
    }
  }

  /** In every interleaving, with records expiring, lost or failing at any call: no key has two journals, the books are
      sound, and what the bank holds is what running only the first successful movement of each key would give. */
  lemma EndToEndAtMostOnce(cfg: Settings, ttl: Ttl, moves: seq<Move>)
    requires ProperMoves(moves)
    ensures var w := After(cfg, ttl, moves);
            var reqs := Requests(w.served);
            && Safe(w.db) && UniqueKeys(w.db)
            && Same(w.db, Bank.Run(EMPTY, cfg, Effective(EMPTY, cfg, reqs)))
            && KeyedOnce(Effective(EMPTY, cfg, reqs), w.db.journals)
            && (forall i, j | 0 <= i < j < |w.served| :: w.served[i].visit != w.served[j].visit)
  {
    var w := After(cfg, ttl, moves);
    AlwaysFaithful(cfg, ttl, moves);
    ServedAreProper(w, cfg);
    RunIsSafe(cfg, Requests(w.served));
    ReplaysCanBeDropped(cfg, Requests(w.served));
    EffectiveKeysAreDistinct(cfg, Requests(w.served));
  }

  /** And every date-filtered statement drawn from it is exact. */
  lemma StatementsStayExact(cfg: Settings, ttl: Ttl, moves: seq<Move>, id: string, f: Statements.Filter)
    requires ProperMoves(moves) && Statements.DatesOnly(f) && id in After(cfg, ttl, moves).db.accounts
    ensures Statements.ExactStatement(After(cfg, ttl, moves).db, id, f)
  {
    var w := After(cfg, ttl, moves);
    AlwaysFaithful(cfg, ttl, moves);
    ServedAreProper(w, cfg);
    Statements.RunStatementsAreExact(cfg, Requests(w.served), id, f);
  }
}
