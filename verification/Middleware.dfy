/** The idempotency middleware: one request's walk through the store, as steps and as code. */
module Middleware {
  import opened Prelude
  import opened Digits
  import opened Canonical
  import opened RequestKeys
  import opened Idempotency

  /** What the client gets. */
  datatype Reply =
    | Fresh(status: nat, payload: Payload)      // straight from the handler
    | Replayed(status: nat, payload: Payload)   // from a completed record
    | Conflict                                  // 409
    | StorageError                              // 503
    | Raised                                    // the handler's exception

  datatype Outcome = Responded(status: nat, payload: Payload) | Crashed

  /** The reply of a request the middleware lets straight through. */
  function Direct(outcome: Outcome): Reply {
    if outcome.Crashed? then Raised else Fresh(outcome.status, outcome.payload)
  }

  /** What the middleware sees of a request: `user` is the authenticated subject, `body` the parsed dict. */
  datatype Http = Http(verb: string, path: string, query: string, excluded: bool, user: Option<string>,
                       body: seq<Field>, clientKey: string)
  {
    /** `_idempotency_route` */
    function Route(): string {
      if query == "" then path else path + "?" + query
    }

    /** `_maybe_skip` lets everything else through unguarded. */
    predicate Guarded() {
      && (verb == "POST" || verb == "PUT" || verb == "PATCH")
      && !excluded && user.Some?
      && (body != [] || query != "" || Strip(clientKey) != "")
    }
  }

  /** Where a guarded request stands between two store calls. */
  datatype Pc =
    | Reading                                                       // before GET
    | Clearing                                                      // before DELETE of a failed record
    | Locking                                                       // before SET NX
    | Handling                                                      // before the handler
    | Storing(status: nat, payload: Payload)                        // before the GET of `set_completed`
    | Writing(status: nat, payload: Payload, existing: Option<Record>) // before its SET
    | Releasing(reply: Reply)                                       // before DELETE after a failed handler
    | Finished(reply: Reply)

  /** `_cached_response` */
  function CachedReply(record: Record): Reply {
    Replayed(
      if record.code.None? || record.code.value == 0 then 200 else record.code.value,
      match record.body
      case Absent => Structured(Obj([]))
      case Structured(json) => Structured(json)
      case Scalar(text) => Structured(Obj([Field("message", Text(text))])))
  }

  /** `_resolve_existing_record` once the record is read. */
  function AfterRead(found: Option<Record>): Pc {
    if found.None? then Locking
    else match found.value.status
      case Completed => Finished(CachedReply(found.value))
      case Processing => Finished(Conflict)
      case Failed => Clearing
  }

  function AfterHandler(outcome: Outcome): Pc {
    match outcome
    case Crashed => Releasing(Raised)
    case Responded(status, payload) =>
      if status >= 400 then Releasing(Fresh(status, payload)) else Storing(status, payload)
  }

  predicate AtStore(pc: Pc) {
    !pc.Handling? && !pc.Finished?
  }

  /** One store call of a request, at the time it is made. */
  function Step(pc: Pc, key: RequestKey, entries: Entries, now: int, fault: Fault, ttl: Ttl): (Pc, Entries)
    requires AtStore(pc)
  {
    match pc
    case Reading =>
      (if fault.Fine? then AfterRead(Got(entries, key, now)) else Finished(StorageError), entries)
    case Clearing =>
      (if fault.Fine? then Locking else Finished(StorageError),
       if fault.Done() then Without(entries, key) else entries)
    case Locking =>
      var free := !Live(entries, key, now);
      (if !fault.Fine? then Finished(StorageError) else if free then Handling else Finished(Conflict),
       if fault.Done() && free then Stored(entries, key, ProcessingRecord(key), now + ttl.processing) else entries)
    case Storing(status, payload) =>
      (if fault.Fine? then Writing(status, payload, Got(entries, key, now)) else Finished(StorageError), entries)
    case Writing(status, payload, existing) =>
      (if fault.Fine? then Finished(Fresh(status, payload)) else Finished(StorageError),
       if fault.Done() then Stored(entries, key, CompletedRecord(existing, status, payload), now + ttl.completed)
       else entries)
    case Releasing(reply) =>
      (if fault.Fine? then Finished(reply) else Finished(StorageError),
       if fault.Done() then Without(entries, key) else entries)
  }

  // ---------------------------------------------------------------- a request served alone

  /** The store as one request meets it. */
  datatype Link = Link(entries: Entries, now: int, weather: seq<Moment>)

  function Rank(pc: Pc): nat {
    match pc
    case Reading => 6
    case Clearing => 5
    case Locking => 4
    case Handling => 3
    case Storing(_, _) => 2
    case Writing(_, _, _) => 1
    case Releasing(_) => 1
    case Finished(_) => 0
  }

  /** All remaining steps of a request with nobody else at the store. */
  function Drive(pc: Pc, key: RequestKey, link: Link, outcome: Outcome, ttl: Ttl): (Reply, Link)
    decreases Rank(pc)
  {
    match pc
    case Finished(reply) => (reply, link)
    case Handling => Drive(AfterHandler(outcome), key, link, outcome, ttl)
    case _ =>
      var m := First(link.weather);
      var now := link.now + m.elapsed;
      var (next, entries) := Step(pc, key, link.entries, now, m.fault, ttl);
      Drive(next, key, Link(entries, now, Rest(link.weather)), outcome, ttl)
  }

  /** The two store calls of `set_completed`, spelled out. */
  lemma DriveStoring(key: RequestKey, link: Link, status: nat, payload: Payload, outcome: Outcome, ttl: Ttl)
    ensures var m, m' := First(link.weather), First(Rest(link.weather));
            var now, now' := link.now + m.elapsed, link.now + m.elapsed + m'.elapsed;
            var record := CompletedRecord(Got(link.entries, key, now), status, payload);
            Drive(Storing(status, payload), key, link, outcome, ttl)
            == if !m.fault.Fine? then (StorageError, Link(link.entries, now, Rest(link.weather)))
               else (if m'.fault.Fine? then Fresh(status, payload) else StorageError,
                     Link(if m'.fault.Done() then Stored(link.entries, key, record, now' + ttl.completed)
                          else link.entries,
                          now', Rest(Rest(link.weather))))
  {
    var m := First(link.weather);
    var now := link.now + m.elapsed;
    if m.fault.Fine? {
      var writing := Writing(status, payload, Got(link.entries, key, now));
      var middle := Link(link.entries, now, Rest(link.weather));
      assert Drive(Storing(status, payload), key, link, outcome, ttl) == Drive(writing, key, middle, outcome, ttl);
      var m' := First(middle.weather);
      var (done, entries) := Step(writing, key, link.entries, now + m'.elapsed, m'.fault, ttl);
      assert done.Finished?;
      assert Drive(writing, key, middle, outcome, ttl)
          == Drive(done, key, Link(entries, now + m'.elapsed, Rest(middle.weather)), outcome, ttl);
    }
  }

  function LinkOf(redis: Redis): Link
    reads redis
  {
    Link(redis.entries, redis.now, redis.weather)
  }

  /** Each method either ends the request or hands on to the next, and says which steps it has taken. */
  class IdempotencyMiddleware {
    const service: IdempotencyService

    constructor (service: IdempotencyService)
      ensures this.service == service
    {
      this.service := service;
    }

    method ResolveExistingRecord(key: RequestKey, ghost outcome: Outcome) returns (r: Option<Reply>)
      modifies service.redis
      ensures Drive(Reading, key, old(LinkOf(service.redis)), outcome, service.ttl)
           == if r.Some? then (r.value, LinkOf(service.redis))
              else Drive(Locking, key, LinkOf(service.redis), outcome, service.ttl)
    {
      var record := service.Check(key);
      if record.Failure? { return Some(StorageError); }
      if record.value.None? { return None; }
      match record.value.value.status {
        case Completed => return Some(CachedReply(record.value.value));
        case Processing => return Some(Conflict);
        case Failed =>
          var cleared := service.SetFailed(key);
          if cleared.Failure? { return Some(StorageError); }
          return None;
      }
    }

    method AcquireProcessingLock(key: RequestKey, ghost outcome: Outcome) returns (r: Option<Reply>)
      modifies service.redis
      ensures Drive(Locking, key, old(LinkOf(service.redis)), outcome, service.ttl)
           == if r.Some? then (r.value, LinkOf(service.redis))
              else Drive(Handling, key, LinkOf(service.redis), outcome, service.ttl)
    {
      var locked := service.SetProcessing(key);
      match locked {
        case Success(_) => return None;
        case Failure(Duplicate) => return Some(Conflict);
        case Failure(Unavailable) => return Some(StorageError);
      }
    }

    /** `call_next` is the given outcome. */
    method ExecuteAndCache(key: RequestKey, outcome: Outcome) returns (reply: Reply)
      modifies service.redis
      ensures Drive(Handling, key, old(LinkOf(service.redis)), outcome, service.ttl) == (reply, LinkOf(service.redis))
    {
      match outcome {
        case Crashed =>
          var cleared := service.SetFailed(key);
          return if cleared.Failure? then StorageError else Raised;
        case Responded(status, payload) =>
          if status >= 400 {
            var cleared := service.SetFailed(key);
            return if cleared.Failure? then StorageError else Fresh(status, payload);
          }
          DriveStoring(key, LinkOf(service.redis), status, payload, outcome, service.ttl);
          var stored := service.SetCompleted(key, status, payload);
          return if stored.Failure? then StorageError else Fresh(status, payload);
      }
    }

    /** The structured code takes exactly the steps of the protocol, and touches the store only for guarded requests. */
    method Dispatch(http: Http, outcome: Outcome) returns (reply: Reply)
      modifies service.redis
      ensures (http.verb != "POST" && http.verb != "PUT" && http.verb != "PATCH") || http.excluded || http.user.None?
              || (http.body == [] && http.query == "" && Strip(http.clientKey) == "") ==>
                reply == Direct(outcome) && LinkOf(service.redis) == old(LinkOf(service.redis))
      ensures (http.verb == "POST" || http.verb == "PUT" || http.verb == "PATCH") && !http.excluded && http.user.Some?
              && (http.body != [] || http.query != "" || Strip(http.clientKey) != "") ==>
                var route := if http.query == "" then http.path else http.path + "?" + http.query;
                match GenerateKey(route, http.verb, http.user.value, http.body)
                case Failure(_) => reply == Raised && LinkOf(service.redis) == old(LinkOf(service.redis))
                case Success(key) =>
                  Drive(Reading, key, old(LinkOf(service.redis)), outcome, service.ttl)
                  == (reply, LinkOf(service.redis))
    {
      if !http.Guarded() { return Direct(outcome); }
      var key := GenerateKey(http.Route(), http.verb, http.user.value, http.body);
      if key.Failure? { return Raised; }
      var cached := ResolveExistingRecord(key.value, outcome);
      if cached.Some? { return cached.value; }
      var refused := AcquireProcessingLock(key.value, outcome);
      if refused.Some? { return refused.value; }
      reply := ExecuteAndCache(key.value, outcome);
    }
  }

  // ---------------------------------------------------------------- a retry in good weather

  function Calm(entries: Entries, now: int): Link {
    Link(entries, now, [])
  }

  /** A request on a free key answers with the handler's response; a retry within the record's life answers the same
      status with the sanitized body, whatever its own handler would have said; after an error it runs again. */
  lemma RetryIsAnsweredFromTheRecord(key: RequestKey, entries: Entries, now: int, later: int, first: Outcome,
                                     second: Outcome, ttl: Ttl)
    requires !Live(entries, key, now) && now <= later && ttl.processing > 0
    ensures var (reply, link) := Drive(Reading, key, Calm(entries, now), first, ttl);
            var (retry, after) := Drive(Reading, key, Calm(link.entries, later), second, ttl);
            && reply == Direct(first)
            && (first.Responded? && first.status < 400 && later < now + ttl.completed ==>
                  && retry == CachedReply(CompletedRecord(Some(ProcessingRecord(key)), first.status, first.payload))
                  && (first.status > 0 ==> retry.status == first.status)
                  && (first.status == 0 ==> retry.status == 200)
                  && key in link.entries
                  && link.entries[key]
                     == Entry(Record(Completed, Some(key), Some(first.status), SanitizedPayload(first.payload), 1),
                              now + ttl.completed)
                  && (first.payload.Structured? ==> retry.payload == Structured(Sanitized(first.payload.json)))
                  && (first.payload.Scalar? ==>
                        retry.payload == Structured(Obj([Field("message", Text(first.payload.text))])))
                  && (first.payload.Absent? ==> retry.payload == Structured(Obj([])))
                  && after.entries == link.entries)
            && (first.Crashed? || first.status >= 400 || later >= now + ttl.completed ==>
                  retry == Direct(second))
  {
    var locked := Stored(entries, key, ProcessingRecord(key), now + ttl.processing);
    assert Got(locked, key, now) == Some(ProcessingRecord(key));
    DriveFromFree(key, entries, now, first, ttl);
    var link := Drive(Reading, key, Calm(entries, now), first, ttl).1;
    if !Live(link.entries, key, later) {
      DriveFromFree(key, link.entries, later, second, ttl);
    }
  }

  lemma DriveFromFree(key: RequestKey, entries: Entries, now: int, outcome: Outcome, ttl: Ttl)
    requires !Live(entries, key, now) && ttl.processing > 0
    ensures var (reply, link) := Drive(Reading, key, Calm(entries, now), outcome, ttl);
            && reply == Direct(outcome)
            && (if outcome.Responded? && outcome.status < 400
                then key in link.entries
                     && link.entries[key]
                        == Entry(CompletedRecord(Some(ProcessingRecord(key)), outcome.status, outcome.payload),
                                 now + ttl.completed)
                else key !in link.entries)
  {
    var locked := Stored(entries, key, ProcessingRecord(key), now + ttl.processing);
    assert Got(locked, key, now) == Some(ProcessingRecord(key));
    assert Drive(Reading, key, Calm(entries, now), outcome, ttl)
        == Drive(Locking, key, Calm(entries, now), outcome, ttl);
    assert Drive(Locking, key, Calm(entries, now), outcome, ttl)
        == Drive(Handling, key, Calm(locked, now), outcome, ttl);
    if outcome.Responded? && outcome.status < 400 {
      DriveStoring(key, Calm(locked, now), outcome.status, outcome.payload, outcome, ttl);
    }
  }
}
