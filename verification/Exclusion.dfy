/** Mutual exclusion and finality of completed records, when guarded requests finish within their lock's life. */
module Exclusion {
  import opened Prelude
  import opened Tables
  import opened RequestKeys
  import opened Idempotency
  import opened Middleware
  import opened Traffic
  import Bank

  /** From taking the lock to the last store call. */
  predicate InFlight(v: Visit) {
    v.key.Some? && (v.pc.Handling? || v.pc.Storing? || v.pc.Writing? || v.pc.Releasing?)
  }

  /** No record is lost, and time does not run past the lock of a visit in flight. */
  ghost predicate Punctual(w: World, ttl: Ttl, move: Move) {
    match move
    case Wait(until) =>
      forall p | p in w.visits && InFlight(w.visits[p]) :: until < w.visits[p].lockedAt + ttl.processing
    case Lose(_) => false
    case _ => true
  }

  ghost predicate PunctualRun(cfg: Settings, ttl: Ttl, moves: seq<Move>) {
    ttl.processing > 0 && forall i | 0 <= i < |moves| :: Punctual(After(cfg, ttl, moves[..i]), ttl, moves[i])
  }

  /** The visit holds the live processing record of its key. */
  predicate HoldsLock(w: World, ttl: Ttl, v: Visit)
    requires v.key.Some?
  {
    && v.key.value in w.entries
    && w.entries[v.key.value].record.status.Processing?
    && w.entries[v.key.value].expiry == v.lockedAt + ttl.processing
    && w.now < v.lockedAt + ttl.processing
  }

  ghost predicate Exclusive(w: World, ttl: Ttl) {
    && (forall p | p in w.visits && InFlight(w.visits[p]) :: HoldsLock(w, ttl, w.visits[p]))
    && (forall p, q | p in w.visits && q in w.visits && p != q && InFlight(w.visits[p]) && InFlight(w.visits[q]) ::
          w.visits[p].key != w.visits[q].key)
    && (forall key | key in w.entries :: !w.entries[key].record.status.Failed?)
    && (forall p | p in w.visits :: !w.visits[p].pc.Clearing?)
  }

  /** What one store call does to everybody else's record. */
  lemma OtherKeysKept(w: World, p: nat, fault: Fault, ttl: Ttl, key: RequestKey)
    requires p in w.visits && w.visits[p].key.Some? && AtStore(w.visits[p].pc) && w.visits[p].key.value != key
    ensures var after := CallStore(w, p, fault, ttl);
            (key in after.entries <==> key in w.entries)
            && (key in w.entries ==> after.entries[key] == w.entries[key])
  {
  }

  lemma OwnCall(w: World, p: nat, fault: Fault, ttl: Ttl)
    requires Exclusive(w, ttl) && ttl.processing > 0
    requires p in w.visits && w.visits[p].key.Some? && AtStore(w.visits[p].pc)
    ensures var after := CallStore(w, p, fault, ttl);
            && !after.visits[p].pc.Clearing?
            && (InFlight(after.visits[p]) ==> HoldsLock(after, ttl, after.visits[p]))
            && (InFlight(after.visits[p]) && !InFlight(w.visits[p]) ==> !Live(w.entries, w.visits[p].key.value, w.now))
            && (!InFlight(w.visits[p]) && Live(w.entries, w.visits[p].key.value, w.now) ==> after.entries == w.entries)
            && (forall key | key in after.entries :: !after.entries[key].record.status.Failed?)
  {
  }

  lemma StoreCallKeepsExclusive(w: World, p: nat, fault: Fault, ttl: Ttl)
    requires Exclusive(w, ttl) && ttl.processing > 0
    requires p in w.visits && w.visits[p].key.Some? && AtStore(w.visits[p].pc)
    ensures Exclusive(CallStore(w, p, fault, ttl), ttl)
  {
    var after := CallStore(w, p, fault, ttl);
    OwnCall(w, p, fault, ttl);
    forall q | q in w.visits && q != p && InFlight(w.visits[q])
      ensures HoldsLock(after, ttl, w.visits[q])
      ensures InFlight(after.visits[p]) ==> w.visits[q].key != w.visits[p].key
    {
      if w.visits[q].key != w.visits[p].key {
        OtherKeysKept(w, p, fault, ttl, w.visits[q].key.value);
      }
    }
  }

  lemma StepKeepsExclusive(w: World, cfg: Settings, ttl: Ttl, move: Move)
    requires Exclusive(w, ttl) && ttl.processing > 0 && Punctual(w, ttl, move)
    ensures Exclusive(Next(w, cfg, ttl, move), ttl)
  {
    hide CallStore, Bank.Apply;
    match move {
      case StoreCall(p, fault) =>
        if p in w.visits && w.visits[p].key.Some? && AtStore(w.visits[p].pc) {
          StoreCallKeepsExclusive(w, p, fault, ttl);
        }
      case _ =>
    }
  }

  lemma PunctualFront(cfg: Settings, ttl: Ttl, moves: seq<Move>, n: nat)
    requires PunctualRun(cfg, ttl, moves) && n <= |moves|
    ensures PunctualRun(cfg, ttl, moves[..n])
  {
    forall i | 0 <= i < n ensures Punctual(After(cfg, ttl, moves[..n][..i]), ttl, moves[..n][i]) {
      assert moves[..n][..i] == moves[..i];
    }
  }

  /** In every reachable world: at most one request per key is in flight and it holds a live lock; no record is FAILED
      and no request ever has one to clear. */
  lemma {:induction false} MutualExclusion(cfg: Settings, ttl: Ttl, moves: seq<Move>)
    requires PunctualRun(cfg, ttl, moves)
    ensures Exclusive(After(cfg, ttl, moves), ttl)
  {
    if moves == [] {
    } else {
      var n := |moves| - 1;
      PunctualFront(cfg, ttl, moves, n);
      MutualExclusion(cfg, ttl, moves[..n]);
      assert Punctual(After(cfg, ttl, moves[..n]), ttl, moves[n]);
      StepKeepsExclusive(After(cfg, ttl, moves[..n]), cfg, ttl, moves[n]);
    }
  }

  // ---------------------------------------------------------------- completed records are final

  ghost predicate CompletedAt(w: World, key: RequestKey) {
    Live(w.entries, key, w.now) && w.entries[key].record.status.Completed?
  }

  /** How a request under a completed key can stand, given where it stood when the record was completed. */
  predicate Answered(before: Option<Visit>, after: Visit, record: Record) {
    if before.Some? && before.value.pc.Finished? then after.pc == before.value.pc
    else match after.pc
      case Reading => true
      case Locking => before.Some? && before.value.pc.Locking?
      case Finished(reply) =>
        reply == CachedReply(record) || reply == StorageError
        || (reply == Conflict && before.Some? && before.value.pc.Locking?)
      case _ => false
  }

  function VisitAt(w: World, p: nat): Option<Visit> {
    if p in w.visits then Some(w.visits[p]) else None
  }

  ghost predicate Final(w: World, w': World, key: RequestKey)
    requires key in w.entries
  {
    && key in w'.entries && w'.entries[key] == w.entries[key]
    && (forall p | p in w.visits :: p in w'.visits && w'.visits[p].key == w.visits[p].key)
    && (forall p | p in w'.visits && w'.visits[p].key == Some(key) ::
          Answered(VisitAt(w, p), w'.visits[p], w.entries[key].record))
    && |w.served| <= |w'.served|
    && (forall i | |w.served| <= i < |w'.served| ::
          w'.served[i].visit in w'.visits && w'.visits[w'.served[i].visit].key != Some(key))
  }

  lemma FinalAtOnce(w: World, ttl: Ttl, key: RequestKey)
    requires Exclusive(w, ttl) && CompletedAt(w, key)
    ensures Final(w, w, key)
  {
  }

  /** A request under the key makes a store call: the record answers it, and is left as it is. */
  lemma OwnFinalCall(w: World, w': World, p: nat, fault: Fault, ttl: Ttl, key: RequestKey)
    requires CompletedAt(w, key) && Final(w, w', key) && Exclusive(w', ttl) && w'.now < w.entries[key].expiry
    requires p in w'.visits && w'.visits[p].key == Some(key) && AtStore(w'.visits[p].pc)
    ensures CallStore(w', p, fault, ttl).entries == w'.entries
    ensures Answered(VisitAt(w, p), CallStore(w', p, fault, ttl).visits[p], w.entries[key].record)
  {
    assert Live(w'.entries, key, w'.now);
  }

  lemma FinalStoreCall(w: World, w': World, p: nat, fault: Fault, ttl: Ttl, key: RequestKey)
    requires CompletedAt(w, key) && Final(w, w', key) && Exclusive(w', ttl) && w'.now < w.entries[key].expiry
    requires p in w'.visits && w'.visits[p].key.Some? && AtStore(w'.visits[p].pc)
    ensures Final(w, CallStore(w', p, fault, ttl), key)
  {
    hide Step, Answered, Exclusive;
    if w'.visits[p].key == Some(key) {
      OwnFinalCall(w, w', p, fault, ttl, key);
    } else {
      OtherKeysKept(w', p, fault, ttl, key);
    }
  }

  lemma FinalStep(w: World, w': World, cfg: Settings, ttl: Ttl, key: RequestKey, move: Move)
    requires CompletedAt(w, key) && Final(w, w', key) && Exclusive(w', ttl) && Punctual(w', ttl, move)
    requires w'.now < w.entries[key].expiry
    ensures Final(w, Next(w', cfg, ttl, move), key)
  {
    hide CallStore, Bank.Apply, Exclusive;
    match move {
      case StoreCall(p, fault) =>
        if p in w'.visits && w'.visits[p].key.Some? && AtStore(w'.visits[p].pc) {
          FinalStoreCall(w, w', p, fault, ttl, key);
        }
      case _ =>
    }
  }

  lemma TimeMovesForward(w: World, cfg: Settings, ttl: Ttl, move: Move)
    ensures Next(w, cfg, ttl, move).now >= w.now
  {
  }

  /** Once a key is completed, then until the record expires: the record stays as it is, no handler runs under the key,
      and every other request gets the stored status and body, or 503, or a 409 if it had read the key before. */
  lemma {:induction false} CompletedIsFinal(cfg: Settings, ttl: Ttl, moves: seq<Move>, i: nat, key: RequestKey)
    requires PunctualRun(cfg, ttl, moves) && i <= |moves|
    requires CompletedAt(After(cfg, ttl, moves[..i]), key)
    requires After(cfg, ttl, moves).now < After(cfg, ttl, moves[..i]).entries[key].expiry
    ensures Final(After(cfg, ttl, moves[..i]), After(cfg, ttl, moves), key)
  {
    hide Exclusive, Final, Next, Punctual, CompletedAt;
    if i == |moves| {
      assert moves[..i] == moves;
      MutualExclusion(cfg, ttl, moves);
      FinalAtOnce(After(cfg, ttl, moves), ttl, key);
    } else {
      var n := |moves| - 1;
      PunctualFront(cfg, ttl, moves, n);
      assert moves[..n][..i] == moves[..i];
      TimeMovesForward(After(cfg, ttl, moves[..n]), cfg, ttl, moves[n]);
      CompletedIsFinal(cfg, ttl, moves[..n], i, key);
      MutualExclusion(cfg, ttl, moves[..n]);
      assert Punctual(After(cfg, ttl, moves[..n]), ttl, moves[n]);
      FinalStep(After(cfg, ttl, moves[..i]), After(cfg, ttl, moves[..n]), cfg, ttl, key, moves[n]);
    }
  }
}
