/** The idempotency records in Redis and the service that reads and writes them. */
module Idempotency {
  import opened Prelude
  import opened Digits
  import opened Canonical
  import opened RequestKeys

  datatype Status = Processing | Completed | Failed

  /** A parsed response body: nothing, a dict or list, or any other value as its text. */
  datatype Payload = Absent | Structured(json: Json) | Scalar(text: string)

  datatype Record = Record(status: Status, hash: Option<RequestKey>, code: Option<nat>, body: Payload, attempts: nat)

  datatype Entry = Entry(record: Record, expiry: int)

  type Entries = map<RequestKey, Entry>

  datatype Ttl = Ttl(processing: int, completed: int)

  /** How the store answers one call: properly, or with an error before or after doing what it was asked. */
  datatype Fault = Fine | LostBefore | LostAfter {
    predicate Done() {
      !LostBefore?
    }
  }

  // ---------------------------------------------------------------- store commands

  predicate Live(entries: Entries, key: RequestKey, now: int) {
    key in entries && now < entries[key].expiry
  }

  function Got(entries: Entries, key: RequestKey, now: int): Option<Record> {
    if Live(entries, key, now) then Some(entries[key].record) else None
  }

  function Stored(entries: Entries, key: RequestKey, record: Record, expiry: int): Entries {
    entries[key := Entry(record, expiry)]
  }

  function Without(entries: Entries, key: RequestKey): Entries {
    entries - {key}
  }

  /** What the next command meets: time passes, and the store answers one way or another. */
  datatype Moment = Moment(elapsed: nat, fault: Fault)

  function First(weather: seq<Moment>): Moment {
    if weather == [] then Moment(0, Fine) else weather[0]
  }

  function Rest(weather: seq<Moment>): seq<Moment> {
    if weather == [] then [] else weather[1..]
  }

  datatype StorageFailure = StorageFailure

  class Redis {
    var entries: Entries
    var now: int
    var weather: seq<Moment>

    constructor (entries: Entries, now: int, weather: seq<Moment>)
      ensures this.entries == entries && this.now == now && this.weather == weather
    {
      this.entries, this.now, this.weather := entries, now, weather;
    }

    method Tick() returns (fault: Fault)
      modifies this`now, this`weather
      ensures now == old(now) + First(old(weather)).elapsed && weather == Rest(old(weather))
      ensures fault == First(old(weather)).fault
    {
      var moment := First(weather);
      now, weather := now + moment.elapsed, Rest(weather);
      fault := moment.fault;
    }

    method Get(key: RequestKey) returns (r: Result<Option<Record>, StorageFailure>)
      modifies this`now, this`weather
      ensures now == old(now) + First(old(weather)).elapsed && weather == Rest(old(weather))
      ensures r == if First(old(weather)).fault.Fine? then Success(Got(entries, key, now)) else Failure(StorageFailure)
    {
      var fault := Tick();
      r := if fault.Fine? then Success(Got(entries, key, now)) else Failure(StorageFailure);
    }

    /** `SET key record EX ttl` */
    method Set(key: RequestKey, record: Record, ttl: int) returns (r: Result<(), StorageFailure>)
      modifies this
      ensures now == old(now) + First(old(weather)).elapsed && weather == Rest(old(weather))
      ensures entries == if First(old(weather)).fault.Done() then Stored(old(entries), key, record, now + ttl)
                         else old(entries)
      ensures r.Success? <==> First(old(weather)).fault.Fine?
    {
      var fault := Tick();
      if fault.Done() {
        entries := Stored(entries, key, record, now + ttl);
      }
      r := if fault.Fine? then Success(()) else Failure(StorageFailure);
    }

    /** `SET key record NX EX ttl`: true when the key was free. */
    method SetIfFree(key: RequestKey, record: Record, ttl: int) returns (r: Result<bool, StorageFailure>)
      modifies this
      ensures now == old(now) + First(old(weather)).elapsed && weather == Rest(old(weather))
      ensures entries == if First(old(weather)).fault.Done() && !Live(old(entries), key, now)
                         then Stored(old(entries), key, record, now + ttl) else old(entries)
      ensures r == if First(old(weather)).fault.Fine? then Success(!Live(old(entries), key, now))
                   else Failure(StorageFailure)
    {
      var fault := Tick();
      var free := !Live(entries, key, now);
      if fault.Done() && free {
        entries := Stored(entries, key, record, now + ttl);
      }
      r := if fault.Fine? then Success(free) else Failure(StorageFailure);
    }

    method Delete(key: RequestKey) returns (r: Result<(), StorageFailure>)
      modifies this
      ensures now == old(now) + First(old(weather)).elapsed && weather == Rest(old(weather))
      ensures entries == if First(old(weather)).fault.Done() then Without(old(entries), key) else old(entries)
      ensures r.Success? <==> First(old(weather)).fault.Fine?
    {
      var fault := Tick();
      if fault.Done() {
        entries := Without(entries, key);
      }
      r := if fault.Fine? then Success(()) else Failure(StorageFailure);
    }
  }

  // ---------------------------------------------------------------- records

  function ProcessingRecord(key: RequestKey): Record {
    Record(Processing, Some(key), None, Absent, 1)
  }

  predicate Sensitive(key: string) {
    key == "password" || key == "token" || key == "authorization" || key == "secret" || key == "card_number"
    || key == "cpf" || key == "cnpj" || key == "otp" || key == "code"
  }

  const REDACTED := "***REDACTED***"

  /** `sanitize_sensitive_fields`: lists are left as they are, even when they hold dicts. */
  function Sanitized(v: Json): Json
    decreases v
  {
    if v.Obj? then Obj(SanitizedFields(v, 0)) else v
  }

  function SanitizedFields(o: Json, i: nat): (r: seq<Field>)
    requires o.Obj? && i <= |o.fields|
    ensures |r| == |o.fields| - i
    decreases o, |o.fields| - i
  {
    if i == |o.fields| then []
    else
      var f := o.fields[i];
      [Field(f.key, if Sensitive(Lower(f.key)) then Text(REDACTED) else Sanitized(f.value))] + SanitizedFields(o, i + 1)
  }

  function SanitizedPayload(p: Payload): Payload {
    if p.Structured? then Structured(Sanitized(p.json)) else p
  }

  /** What `set_completed` writes; `existing` is the record it found just before. */
  function CompletedRecord(existing: Option<Record>, code: nat, body: Payload): Record {
    Record(Completed, if existing.Some? then existing.value.hash else None, Some(code), SanitizedPayload(body),
           if existing.Some? then existing.value.attempts else 1)
  }

  datatype LockFailure = Duplicate | Unavailable

  class IdempotencyService {
    const redis: Redis
    const ttl: Ttl

    constructor (redis: Redis, ttl: Ttl)
      ensures this.redis == redis && this.ttl == ttl
    {
      this.redis, this.ttl := redis, ttl;
    }

    method Check(key: RequestKey) returns (r: Result<Option<Record>, StorageFailure>)
      modifies redis`now, redis`weather
      ensures redis.now == old(redis.now) + First(old(redis.weather)).elapsed
      ensures redis.weather == Rest(old(redis.weather))
      ensures r == if First(old(redis.weather)).fault.Fine? then Success(Got(redis.entries, key, redis.now))
                   else Failure(StorageFailure)
    {
      r := redis.Get(key);
    }

    method SetProcessing(key: RequestKey) returns (r: Result<(), LockFailure>)
      modifies redis
      ensures redis.now == old(redis.now) + First(old(redis.weather)).elapsed
      ensures redis.weather == Rest(old(redis.weather))
      ensures redis.entries == if First(old(redis.weather)).fault.Done() && !Live(old(redis.entries), key, redis.now)
                               then Stored(old(redis.entries), key, ProcessingRecord(key), redis.now + ttl.processing)
                               else old(redis.entries)
      ensures r == if !First(old(redis.weather)).fault.Fine? then Failure(Unavailable)
                   else if Live(old(redis.entries), key, redis.now) then Failure(Duplicate) else Success(())
    {
      var created := redis.SetIfFree(key, ProcessingRecord(key), ttl.processing);
      if created.Failure? { return Failure(Unavailable); }
      r := if created.value then Success(()) else Failure(Duplicate);
    }

    /** Two store calls: read the record, then overwrite it. */
    method SetCompleted(key: RequestKey, code: nat, body: Payload) returns (r: Result<(), StorageFailure>)
      modifies redis
      ensures var before, m := old(redis.now), First(old(redis.weather));
              if !m.fault.Fine?
              then r == Failure(StorageFailure) && redis.entries == old(redis.entries)
                   && redis.now == before + m.elapsed && redis.weather == Rest(old(redis.weather))
              else var existing := Got(old(redis.entries), key, before + m.elapsed);
                   var m' := First(Rest(old(redis.weather)));
                   && redis.now == before + m.elapsed + m'.elapsed
                   && redis.weather == Rest(Rest(old(redis.weather)))
                   && (r.Success? <==> m'.fault.Fine?)
                   && redis.entries == if m'.fault.Done()
                                       then Stored(old(redis.entries), key, CompletedRecord(existing, code, body),
                                                   redis.now + ttl.completed)
                                       else old(redis.entries)
    {
      var existing :- Check(key);
      r := redis.Set(key, CompletedRecord(existing, code, body), ttl.completed);
    }

    /** Despite its name it removes the record. */
    method SetFailed(key: RequestKey) returns (r: Result<(), StorageFailure>)
      modifies redis
      ensures redis.now == old(redis.now) + First(old(redis.weather)).elapsed
      ensures redis.weather == Rest(old(redis.weather))
      ensures redis.entries == if First(old(redis.weather)).fault.Done() then Without(old(redis.entries), key)
                               else old(redis.entries)
      ensures r.Success? <==> First(old(redis.weather)).fault.Fine?
    {
      r := redis.Delete(key);
    }
  }

  // ---------------------------------------------------------------- what a replay may show

  /** No value under a sensitive key is left in a dict or in the dicts nested in it. */
  ghost predicate Hidden(v: Json)
    decreases v
  {
    v.Obj? ==> forall i | 0 <= i < |v.fields| ::
      if Sensitive(Lower(v.fields[i].key)) then v.fields[i].value == Text(REDACTED) else Hidden(v.fields[i].value)
  }

  lemma {:induction false} SanitizedField(o: Json, i: nat, j: nat)
    requires o.Obj? && i <= j < |o.fields|
    ensures SanitizedFields(o, i)[j - i]
         == Field(o.fields[j].key,
                  if Sensitive(Lower(o.fields[j].key)) then Text(REDACTED) else Sanitized(o.fields[j].value))
    decreases j - i
  {
    if i == j {
    } else {
      SanitizedField(o, i + 1, j);
    }
  }

  /** Sanitizing hides every sensitive value of nested dicts, keeps all keys and all else, and is stable. */
  lemma {:induction false} SanitizedHides(v: Json)
    ensures Hidden(Sanitized(v)) && Sanitized(Sanitized(v)) == Sanitized(v)
    ensures v.Obj? ==> Keys(Sanitized(v).fields) == Keys(v.fields)
    ensures v.Obj? ==> forall i | 0 <= i < |v.fields| && !Sensitive(Lower(v.fields[i].key)) ::
                         Sanitized(v).fields[i].value == Sanitized(v.fields[i].value)
    ensures !v.Obj? ==> Sanitized(v) == v
    decreases v
  {
    if v.Obj? {
      var r := Sanitized(v);
      forall i | 0 <= i < |v.fields|
        ensures r.fields[i].key == v.fields[i].key
        ensures !Sensitive(Lower(v.fields[i].key)) ==> r.fields[i].value == Sanitized(v.fields[i].value)
        ensures if Sensitive(Lower(v.fields[i].key)) then r.fields[i].value == Text(REDACTED)
                else Hidden(r.fields[i].value) && Sanitized(r.fields[i].value) == r.fields[i].value
        ensures SanitizedFields(r, 0)[i] == r.fields[i]
      {
        SanitizedField(v, 0, i);
        SanitizedHides(v.fields[i].value);
        SanitizedField(r, 0, i);
      }
    }
  }

  /** The fields whose values a replay never shows, however they are capitalized. */
  lemma SensitiveExactly(key: string)
    ensures Sensitive(Lower(key)) <==>
              Lower(key) in ["password", "token", "authorization", "secret", "card_number", "cpf", "cnpj", "otp",
                             "code"]
  {
  }
}
