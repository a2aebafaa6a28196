/** Whose record a request may be answered from: never another route's, method's or user's. */
module Answers {
  import opened Prelude
  import opened Canonical
  import opened RequestKeys
  import opened Idempotency
  import opened Middleware
  import opened Traffic
  import opened Timing
  import opened KeyLaws
  import Bank
  import Tables

  /** Past taking the lock of its key. */
  predicate Took(v: Visit, key: RequestKey) {
    v.key == Some(key) && !v.pc.Reading? && !v.pc.Clearing? && !v.pc.Locking?
  }

  /** An answer that another request's record decided: its response replayed, or a conflict with it. */
  predicate Borrowed(pc: Pc) {
    pc.Finished? && OfAnother(pc.reply)
  }

  predicate OfAnother(reply: Reply) {
    reply.Replayed? || reply.Conflict?
  }

  ghost predicate TakenByOther(w: World, p: nat, key: RequestKey) {
    exists q :: q in w.visits && q != p && Took(w.visits[q], key)
  }

  /** Every record was written by a request of its key, and every borrowed answer has its lender. */
  ghost predicate Traced(w: World) {
    && (forall key | key in w.entries :: exists q :: q in w.visits && Took(w.visits[q], key))
    && (forall p | p in w.visits && Borrowed(w.visits[p].pc) ::
          w.visits[p].key.Some? && TakenByOther(w, p, w.visits[p].key.value))
    && (forall p | p in w.visits && w.visits[p].pc.Releasing? :: !OfAnother(w.visits[p].pc.reply))
  }

  /** What one store call adds: its own record at most, and an answer borrowed from a record that was there. */
  lemma OneCall(w: World, p: nat, fault: Fault, ttl: Ttl)
    requires Traced(w) && p in w.visits && w.visits[p].key.Some? && AtStore(w.visits[p].pc)
    ensures var after, key := CallStore(w, p, fault, ttl), w.visits[p].key.value;
            && (forall other | other in after.entries && other != key :: other in w.entries)
            && (key in after.entries && key !in w.entries ==> Took(after.visits[p], key))
            && (Took(w.visits[p], key) ==> Took(after.visits[p], key))
            && (Borrowed(after.visits[p].pc) ==> key in w.entries && !Took(w.visits[p], key))
            && (after.visits[p].pc.Releasing? ==> !OfAnother(after.visits[p].pc.reply))
  {
  }

  lemma StoreCallIsTraced(w: World, p: nat, fault: Fault, ttl: Ttl)
    requires Traced(w) && p in w.visits && w.visits[p].key.Some? && AtStore(w.visits[p].pc)
    ensures Traced(CallStore(w, p, fault, ttl))
  {
    hide Step, Took, Borrowed, OfAnother;
    var after, own := CallStore(w, p, fault, ttl), w.visits[p].key.value;
    OneCall(w, p, fault, ttl);
    assert forall q | q in w.visits && q != p :: after.visits[q] == w.visits[q];
    forall key | key in after.entries ensures exists q :: q in after.visits && Took(after.visits[q], key) {
      if key in w.entries {
        var q :| q in w.visits && Took(w.visits[q], key);
        assert Took(after.visits[q], key) by { TookIsKeyed(w.visits[q], key); }
      } else {
        assert Took(after.visits[p], key);
      }
    }
    forall q | q in after.visits && Borrowed(after.visits[q].pc)
      ensures after.visits[q].key.Some? && TakenByOther(after, q, after.visits[q].key.value)
    {
      if q == p {
        var r :| r in w.visits && Took(w.visits[r], own);
        assert r != p && Took(after.visits[r], own);
      } else {
        var key := w.visits[q].key.value;
        var r :| r in w.visits && r != q && Took(w.visits[r], key);
        assert Took(after.visits[r], key) by { TookIsKeyed(w.visits[r], key); }
      }
    }
  }

  lemma TookIsKeyed(v: Visit, key: RequestKey)
    requires Took(v, key)
    ensures v.key == Some(key)
  {
  }

  lemma HandleIsTraced(w: World, cfg: Tables.Settings, p: nat, outcome: Outcome, applied: bool)
    requires Traced(w) && p in w.visits && w.visits[p].pc.Handling?
    ensures Traced(RunHandler(w, cfg, p, outcome, applied))
  {
    hide Bank.Apply, Bank.CallEffect;
    var after := RunHandler(w, cfg, p, outcome, applied);
    forall q, key | q in w.visits && Took(w.visits[q], key) ensures Took(after.visits[q], key) {
    }
  }

  lemma StepIsTraced(w: World, cfg: Tables.Settings, ttl: Ttl, move: Move)
    requires Traced(w)
    ensures Traced(Next(w, cfg, ttl, move))
  {
    hide CallStore, RunHandler, Took, OfAnother;
    match move {
      case StoreCall(p, fault) =>
        if p in w.visits && w.visits[p].key.Some? && AtStore(w.visits[p].pc) {
          StoreCallIsTraced(w, p, fault, ttl);
        }
      case Handle(p, outcome, applied) =>
        if p in w.visits && w.visits[p].pc.Handling? {
          HandleIsTraced(w, cfg, p, outcome, applied);
        }
      case Arrive(p, key, call) =>
        if p !in w.visits {
          ArrivalIsTraced(w, p, Visit(key, call, if key.Some? then Reading else Handling, w.now));
        }
      case _ =>
    }
  }

  lemma ArrivalIsTraced(w: World, p: nat, v: Visit)
    requires Traced(w) && p !in w.visits && (v.pc.Reading? || v.pc.Handling?)
    ensures Traced(w.(visits := w.visits[p := v]))
  {
    hide Took, OfAnother;
    var after := w.(visits := w.visits[p := v]);
    forall key | key in w.entries ensures exists q :: q in after.visits && Took(after.visits[q], key) {
      var q :| q in w.visits && Took(w.visits[q], key);
      assert Took(after.visits[q], key);
    }
    forall q | q in w.visits && Borrowed(w.visits[q].pc) ensures TakenByOther(after, q, w.visits[q].key.value) {
      var r :| r in w.visits && r != q && Took(w.visits[r], w.visits[q].key.value);
      assert Took(after.visits[r], w.visits[q].key.value);
    }
  }

  /** In every run, records lost, calls failing and time passing anywhere. */
  lemma {:induction false} RunsAreTraced(cfg: Tables.Settings, ttl: Ttl, moves: seq<Move>)
    ensures Traced(After(cfg, ttl, moves))
  {
    hide Next, Traced;
    if moves == [] {
      assert Traced(QUIET) by { QuietIsTraced(); }
    } else {
      RunsAreTraced(cfg, ttl, moves[..|moves| - 1]);
      StepIsTraced(After(cfg, ttl, moves[..|moves| - 1]), cfg, ttl, moves[|moves| - 1]);
    }
  }

  lemma QuietIsTraced()
    ensures Traced(QUIET)
  {
  }

  // ---------------------------------------------------------------- requests behind the keys

  /** The visit is that request, guarded under the key of its own route, method, user and body. */
  predicate Is(v: Visit, http: Http) {
    && http.user.Some? && v.key.Some?
    && GenerateKey(http.Route(), http.verb, http.user.value, http.body) == Success(v.key.value)
  }

  /** Every guarded visit is the request on file for it. */
  ghost predicate OnFile(w: World, requests: nat -> Http) {
    forall p | p in w.visits && w.visits[p].key.Some? :: Is(w.visits[p], requests(p))
  }

  /** Same route, method and user, and, on routes without a form of their own, the same body up to spelling. */
  ghost predicate SameRequest(a: Http, b: Http) {
    && a.Route() == b.Route() && a.verb == b.verb && a.user == b.user
    && (Plain(a.Route()) ==> Alike(Obj(a.body), Obj(b.body), false))
  }

  lemma OneKeyOneRequest(v: Visit, u: Visit, a: Http, b: Http)
    requires Is(v, a) && Is(u, b) && v.key == u.key
    ensures SameRequest(a, b)
  {
    hide GenerateKey, Encodable, Alike, Plain;
    KeyNamesRequest(a.Route(), a.verb, a.user.value, a.body, b.Route(), b.verb, b.user.value, b.body);
    KeyExistsIff(a.Route(), a.verb, a.user.value, a.body);
    KeyExistsIff(b.Route(), b.verb, b.user.value, b.body);
    DictSucceedsIff(Obj(a.body));
    DictSucceedsIff(Obj(b.body));
    if Plain(a.Route()) {
      PlainKeysExactly(a.Route(), a.verb, a.user.value, a.body, b.Route(), b.verb, b.user.value, b.body);
    }
  }

  /** A request is answered from a record, or refused because of one, only if another request of the same route,
      method, user and body left it. */
  lemma AnsweredByItsLike(cfg: Tables.Settings, ttl: Ttl, moves: seq<Move>, requests: nat -> Http, p: nat)
    requires var w := After(cfg, ttl, moves);
             OnFile(w, requests) && p in w.visits && Borrowed(w.visits[p].pc)
    ensures var w := After(cfg, ttl, moves);
            exists q :: q in w.visits && q != p && SameRequest(requests(p), requests(q))
  {
    hide After, SameRequest, Is, Borrowed;
    RunsAreTraced(cfg, ttl, moves);
    var w := After(cfg, ttl, moves);
    var q :| q in w.visits && q != p && Took(w.visits[q], w.visits[p].key.value);
    OneKeyOneRequest(w.visits[p], w.visits[q], requests(p), requests(q));
  }

  /** Whatever records other requests have left, a request of which no like has arrived reaches its handler. */
  lemma NewRequestReachesItsHandler(cfg: Tables.Settings, ttl: Ttl, moves: seq<Move>, requests: nat -> Http, p: nat,
                                    key: RequestKey, call: Bank.Call)
    requires OnFile(After(cfg, ttl, moves), requests) && p !in After(cfg, ttl, moves).visits
    requires requests(p).user.Some?
    requires var http := requests(p);
             GenerateKey(http.Route(), http.verb, http.user.value, http.body) == Success(key)
    requires forall q | q in After(cfg, ttl, moves).visits :: !SameRequest(requests(p), requests(q))
    ensures var arrived := moves + [Arrive(p, Some(key), call)] + [StoreCall(p, Fine)] + [StoreCall(p, Fine)];
            var w := After(cfg, ttl, arrived);
            p in w.visits && w.visits[p] == Visit(Some(key), call, Handling, After(cfg, ttl, moves).now)
  {
    hide After, Next, SameRequest, GenerateKey;
    var w := After(cfg, ttl, moves);
    RunsAreTraced(cfg, ttl, moves);
    if key in w.entries {
      var q :| q in w.visits && Took(w.visits[q], key);
      OneKeyOneRequest(Visit(Some(key), call, Reading, 0), w.visits[q], requests(p), requests(q));
      assert false;
    }
    EnterSteps(w, cfg, ttl, p, key, call);
    OneMoreMove(cfg, ttl, moves, Arrive(p, Some(key), call));
    OneMoreMove(cfg, ttl, moves + [Arrive(p, Some(key), call)], StoreCall(p, Fine));
    OneMoreMove(cfg, ttl, moves + [Arrive(p, Some(key), call)] + [StoreCall(p, Fine)], StoreCall(p, Fine));
  }

  lemma OneMoreMove(cfg: Tables.Settings, ttl: Ttl, moves: seq<Move>, move: Move)
    ensures After(cfg, ttl, moves + [move]) == Next(After(cfg, ttl, moves), cfg, ttl, move)
  {
    assert (moves + [move])[..|moves|] == moves;
  }

  /** A route is its path and its query. */
  lemma RouteNamesPathAndQuery(a: Http, b: Http)
    requires '?' !in a.path && '?' !in b.path
    ensures a.Route() == b.Route() <==> a.path == b.path && a.query == b.query
  {
    var x, y := a.Route(), b.Route();
    if x == y {
      PathEnds(a);
      PathEnds(b);
    }
  }

  lemma PathEnds(http: Http)
    requires '?' !in http.path
    ensures var r := http.Route();
            && |http.path| <= |r| && r[..|http.path|] == http.path
            && (if http.query == "" then |r| == |http.path|
                else |r| > |http.path| && r[|http.path|] == '?' && r[|http.path| + 1..] == http.query)
  {
  }
}
