/** The idempotency protocol: a request claims its key, runs its handler, completes or fails the record. */
module Idempotency {
  import opened Wrappers
  import opened StableJson

  /** Records are never deleted, so a record is named by its unique key. */
  datatype RecordKey = RecordKey(tenant: string, scope: string, key: string)

  datatype Status = Pending | Completed | Failed

  /** SHA-256 is taken to be injective, so the request hash is the canonical text itself. */
  datatype Record = Record(requestHash: Text, status: Status, responseCode: Option<int>, responseBody: Value,
      expiresAt: int)

  type Records = map<RecordKey, Record>

  datatype Reply = Claimed | Replay(statusCode: int, body: Value) | Conflict

  // ---------- the database calls ----------

  function Fresh(hash: Text, expiresAt: int): Record { Record(hash, Pending, None, VNull, expiresAt) }

  /** What the call does after reading the record: answer at once, or (None) try to reclaim it. */
  function Decide(r: Record, hash: Text, now: int): Option<Reply> {
    if r.requestHash != hash then Some(Conflict)
    else if r.status == Completed then
      Some(Replay(if r.responseCode.Some? then r.responseCode.value else 200, r.responseBody))
    else if r.status == Pending && r.expiresAt > now then Some(Conflict)
    else None
  }

  predicate MayReclaim(r: Record, now: int) { r.status == Failed || r.expiresAt <= now }

  function Complete(rs: Records, key: RecordKey, statusCode: int, body: Value): Records
    requires key in rs
  {
    rs[key := rs[key].(status := Completed, responseCode := Some(statusCode), responseBody := body)]
  }

  function Fail(rs: Records, key: RecordKey): Records {
    if key in rs && rs[key].status == Pending then rs[key := rs[key].(status := Failed)] else rs
  }

  /** A claim that no other call interrupts. */
  function ClaimAlone(rs: Records, key: RecordKey, hash: Text, expiresAt: int, now: int): (Reply, Records) {
    if key !in rs then (Claimed, rs[key := Fresh(hash, expiresAt)]) else ClaimFound(rs, key, hash, expiresAt, now)
  }

  /** Where the row is there already. */
  function ClaimFound(rs: Records, key: RecordKey, hash: Text, expiresAt: int, now: int): (Reply, Records)
    requires key in rs
  {
    match Decide(rs[key], hash, now)
    case Some(reply) => (reply, rs)
    case None =>
      if MayReclaim(rs[key], now) then (Claimed, rs[key := Fresh(hash, expiresAt)]) else (Conflict, rs)
  }

  class IdempotencyService {
    var records: Records

    constructor ()
      ensures records == map[]
    {
      records := map[];
    }

    /** False where the unique index refuses the row. */
    method TryCreate(key: RecordKey, hash: Text, expiresAt: int) returns (created: bool)
      modifies this
      ensures created == (key !in old(records))
      ensures records == if created then old(records)[key := Fresh(hash, expiresAt)] else old(records)
    {
      created := key !in records;
      if created { records := records[key := Fresh(hash, expiresAt)]; }
    }

    method Reclaim(key: RecordKey, hash: Text, expiresAt: int, now: int) returns (count: nat)
      requires key in records
      modifies this
      ensures count == if MayReclaim(old(records)[key], now) then 1 else 0
      ensures records == if count == 1 then old(records)[key := Fresh(hash, expiresAt)] else old(records)
    {
      count := 0;
      if records[key].status == Failed || records[key].expiresAt <= now {
        records := records[key := records[key].(requestHash := hash, status := Pending, responseCode := None,
                                                responseBody := VNull, expiresAt := expiresAt)];
        count := 1;
      }
    }

    /** `ttlMs` defaults to one day in the source; `now` is read once here. */
    method ClaimKey(key: RecordKey, request: Json, ttlMs: int, now: int) returns (reply: Reply)
      modifies this
      ensures (reply, records) == ClaimAlone(old(records), key, Stable(request), now + ttlMs, now)
    {
      var hash := Stable(request);
      var created := TryCreate(key, hash, now + ttlMs);
      if created { return Claimed; }
      var existing := records[key];
      if existing.requestHash != hash { return Conflict; }
      if existing.status == Completed {
        return Replay(if existing.responseCode.Some? then existing.responseCode.value else 200, existing.responseBody);
      }
      if existing.status == Pending && existing.expiresAt > now { return Conflict; }
      var count := Reclaim(key, hash, now + ttlMs, now);
      return if count != 1 then Conflict else Claimed;
    }

    method CompleteRecord(key: RecordKey, statusCode: int, body: Value)
      requires key in records
      modifies this
      ensures records == Complete(old(records), key, statusCode, body)
    {
      records := records[key := records[key].(status := Completed, responseCode := Some(statusCode),
          responseBody := body)];
    }

    method FailRecord(key: RecordKey)
      modifies this
      ensures records == Fail(old(records), key)
    {
      if key in records && records[key].status == Pending {
        records := records[key := records[key].(status := Failed)];
      }
    }
  }

  // ---------- requests in flight ----------

  type RequestId = string

  /** Where a request stands. `expiresAt` is the expiry it computed when its claim began, `row` the
      record as it was when read, `clock` the time that its update compares expiries with. */
  datatype InFlight =
    | Creating(key: RecordKey, hash: Text, expiresAt: int)
    | Finding(key: RecordKey, hash: Text, expiresAt: int)
    | Found(key: RecordKey, hash: Text, expiresAt: int, row: Record)
    | Reclaiming(key: RecordKey, hash: Text, expiresAt: int, clock: int)
    | Handling(key: RecordKey, expiresAt: int)
    | Failing(key: RecordKey, expiresAt: int)

  /** A claim is three database calls; each is one atomic step, and so is the decision taken on the row
      read, at the time the clock then shows. Other requests, and time, may run between any two. */
  datatype System = System(records: Records, flights: map<RequestId, InFlight>, now: int)

  datatype Step =
    | Begin(id: RequestId, key: RecordKey, request: Json, ttlMs: int)
    | CreateStep(id: RequestId)
    | FindStep(id: RequestId)
    /** Answers or goes on to reclaim, by the row that was read and the time it is now. */
    | DecideStep(id: RequestId)
    | ReclaimStep(id: RequestId)
    | CompleteStep(id: RequestId, statusCode: int, body: Value)
    /** The update commits, but the caller sees an error and goes on to fail the record. */
    | CompleteUnseen(id: RequestId, statusCode: int, body: Value)
    | HandlerThrows(id: RequestId)
    | FailStep(id: RequestId)
    | Crash(id: RequestId)
    | Tick(to: int)

  /** Deciding at time `now`, the request would go on to reclaim the record it found. */
  predicate GoesOn(f: InFlight, now: int) { f.Found? && Decide(f.row, f.hash, now).None? }

  predicate At(s: System, step: Step) {
    match step
    case Begin(id, _, _, _) => id !in s.flights
    case CreateStep(id) => id in s.flights && s.flights[id].Creating?
    case FindStep(id) => id in s.flights && s.flights[id].Finding? && s.flights[id].key in s.records
    case DecideStep(id) => id in s.flights && s.flights[id].Found?
    case ReclaimStep(id) => id in s.flights && s.flights[id].Reclaiming? && s.flights[id].key in s.records
    case CompleteStep(id, _, _) => id in s.flights && s.flights[id].Handling? && s.flights[id].key in s.records
    case CompleteUnseen(id, _, _) => id in s.flights && s.flights[id].Handling? && s.flights[id].key in s.records
    case HandlerThrows(id) => id in s.flights && s.flights[id].Handling?
    case FailStep(id) => id in s.flights && s.flights[id].Failing?
    case Crash(id) => id in s.flights
    case Tick(to) => to >= s.now
  }

  function Do(s: System, step: Step): System
    requires At(s, step)
  {
    match step
    case Begin(id, key, request, ttlMs) => s.(flights := s.flights[id := Creating(key, Stable(request), s.now + ttlMs)])
    case CreateStep(id) =>
      var f := s.flights[id];
      if f.key in s.records then s.(flights := s.flights[id := Finding(f.key, f.hash, f.expiresAt)])
      else s.(records := s.records[f.key := Fresh(f.hash, f.expiresAt)],
          flights := s.flights[id := Handling(f.key, f.expiresAt)])
    case FindStep(id) =>
      var f := s.flights[id];
      s.(flights := s.flights[id := Found(f.key, f.hash, f.expiresAt, s.records[f.key])])
    case DecideStep(id) =>
      var f := s.flights[id];
      if GoesOn(f, s.now) then s.(flights := s.flights[id := Reclaiming(f.key, f.hash, f.expiresAt, s.now)])
      else s.(flights := s.flights - {id})
    case ReclaimStep(id) =>
      var f := s.flights[id];
      if MayReclaim(s.records[f.key], f.clock)
      then s.(records := s.records[f.key := Fresh(f.hash, f.expiresAt)],
          flights := s.flights[id := Handling(f.key, f.expiresAt)])
      else s.(flights := s.flights - {id})
    case CompleteStep(id, statusCode, body) =>
      s.(records := Complete(s.records, s.flights[id].key, statusCode, body), flights := s.flights - {id})
    case CompleteUnseen(id, statusCode, body) =>
      var f := s.flights[id];
      s.(records := Complete(s.records, f.key, statusCode, body),
          flights := s.flights[id := Failing(f.key, f.expiresAt)])
    case HandlerThrows(id) => s.(flights := s.flights[id := Failing(s.flights[id].key, s.flights[id].expiresAt)])
    case FailStep(id) => s.(records := Fail(s.records, s.flights[id].key), flights := s.flights - {id})
    case Crash(id) => s.(flights := s.flights - {id})
    case Tick(to) => s.(now := to)
  }

  predicate ValidRun(s: System, steps: seq<Step>)
    decreases |steps|
  {
    |steps| > 0 ==> At(s, steps[0]) && ValidRun(Do(s, steps[0]), steps[1..])
  }

  function Run(s: System, steps: seq<Step>): System
    requires ValidRun(s, steps)
    decreases |steps|
  {
    if |steps| == 0 then s else Run(Do(s, steps[0]), steps[1..])
  }

  /** What time must not do: run past the expiry of a record while a handler, or a request that is
      about to fail a pending record, still holds it; or past the expiry of a completed record that a
      claim, by the row it read before, would go on to reclaim. And a claim must not become a handler
      after its own expiry. */
  predicate Timely(s: System, step: Step) {
    match step
    case Tick(to) => forall id :: id in s.flights ==> Outlasts(s, s.flights[id], to)
    case CreateStep(id) => id in s.flights && s.flights[id].key !in s.records ==> s.now < s.flights[id].expiresAt
    case ReclaimStep(id) =>
      At(s, step) && MayReclaim(s.records[s.flights[id].key], s.flights[id].clock) ==>
        s.now < s.flights[id].expiresAt
    case _ => true
  }

  predicate Outlasts(s: System, f: InFlight, to: int) {
    f.key in s.records ==>
      var r := s.records[f.key];
      && (f.Handling? || (f.Failing? && r.status == Pending) ==> to < f.expiresAt)
      && (GoesOn(f, to) && r.status == Completed && to < f.expiresAt ==> to < r.expiresAt)
  }

  predicate TimelyRun(s: System, steps: seq<Step>)
    requires ValidRun(s, steps)
    decreases |steps|
  {
    |steps| > 0 ==> Timely(s, steps[0]) && TimelyRun(Do(s, steps[0]), steps[1..])
  }

  // ---------- what always holds ----------

  /** Whatever the timing, a request that will reclaim a record carries the record's own hash, and a
      row that was read has the hash the record still has. */
  predicate HashesAgree(s: System) {
    forall id :: id in s.flights ==>
      var f := s.flights[id];
      && (f.Found? ==> f.key in s.records && s.records[f.key].requestHash == f.row.requestHash)
      && (f.Reclaiming? ==> f.key in s.records && s.records[f.key].requestHash == f.hash)
  }

  lemma {:induction false} HashesKept(s: System, step: Step)
    requires HashesAgree(s) && At(s, step)
    ensures HashesAgree(Do(s, step))
  {
  }

  lemma {:induction false} HashFixedStep(s: System, step: Step, key: RecordKey)
    requires HashesAgree(s) && At(s, step)
    ensures key in s.records ==>
        key in Do(s, step).records && Do(s, step).records[key].requestHash == s.records[key].requestHash
  {
  }

  /** The request hash of a record never changes, in any run, timely or not. */
  lemma {:induction false} HashFixed(s: System, steps: seq<Step>, key: RecordKey)
    requires HashesAgree(s) && ValidRun(s, steps) && key in s.records
    ensures key in Run(s, steps).records && Run(s, steps).records[key].requestHash == s.records[key].requestHash
    ensures HashesAgree(Run(s, steps))
    decreases |steps|
  {
    if |steps| > 0 {
      HashesKept(s, steps[0]);
      HashFixedStep(s, steps[0], key);
      HashFixed(Do(s, steps[0]), steps[1..], key);
    }
  }

  // ---------- timely runs ----------

  predicate Holds(f: InFlight, key: RecordKey) { (f.Handling? || f.Failing?) && f.key == key }

  predicate FlightOk(s: System, f: InFlight) {
    f.Creating? ||
      (f.key in s.records &&
       var r := s.records[f.key];
       && (f.Handling? ==> r.status == Pending)
       && (f.Failing? ==> r.status != Failed)
       && (f.Handling? || f.Failing? ==> r.expiresAt == f.expiresAt)
       && (f.Handling? || (f.Failing? && r.status == Pending) ==> s.now < f.expiresAt)
       && (GoesOn(f, s.now) && r.status == Completed && s.now < f.expiresAt ==> s.now < r.expiresAt)
       && (f.Reclaiming? ==> f.clock <= s.now)
       && (f.Reclaiming? && r.status == Completed && s.now < f.expiresAt ==> f.clock < r.expiresAt))
  }

  predicate OneHolder(s: System) {
    forall p, q :: p in s.flights && q in s.flights && p != q && (s.flights[p].Handling? || s.flights[p].Failing?) ==>
      !Holds(s.flights[q], s.flights[p].key)
  }

  predicate Inv(s: System) {
    && HashesAgree(s)
    && (forall id :: id in s.flights ==> FlightOk(s, s.flights[id]))
    && OneHolder(s)
    && (forall key :: key in s.records && s.records[key].status == Completed ==> s.records[key].responseCode.Some?)
  }

  lemma StartsEmpty(now: int)
    ensures Inv(System(map[], map[], now)) && Spoken(System(map[], map[], now)) && AllLive(System(map[], map[], now))
  {
  }

  lemma {:induction false} NotBoth(s: System, p: RequestId, q: RequestId)
    requires OneHolder(s) && p in s.flights && q in s.flights && p != q
    ensures s.flights[p].Handling? || s.flights[p].Failing? ==> !Holds(s.flights[q], s.flights[p].key)
  {
  }

  lemma {:induction false} OwnFlightKept(s: System, step: Step)
    requires Inv(s) && At(s, step) && Timely(s, step) && !step.Tick? && step.id in Do(s, step).flights
    ensures FlightOk(Do(s, step), Do(s, step).flights[step.id])
  {
    if step.id in s.flights { assert FlightOk(s, s.flights[step.id]); }
  }

  /** The other flights at the insert: only claims yet to create may have the key. */
  lemma {:induction false} CreateSparesFlight(s: System, id: RequestId, f: InFlight)
    requires At(s, CreateStep(id)) && FlightOk(s, f)
    ensures FlightOk(Do(s, CreateStep(id)), f)
  {
  }

  lemma {:induction false} TickSparesFlight(s: System, to: int, f: InFlight)
    requires s.now <= to && FlightOk(s, f) && Outlasts(s, f, to)
    ensures FlightOk(s.(now := to), f)
  {
  }

  lemma {:induction false} ReclaimSparesFlight(s: System, id: RequestId, f: InFlight)
    requires At(s, ReclaimStep(id)) && Timely(s, ReclaimStep(id)) && FlightOk(s, f) && FlightOk(s, s.flights[id])
    ensures FlightOk(Do(s, ReclaimStep(id)), f)
  {
    var g := s.flights[id];
    if f.key == g.key && (f.Handling? || f.Failing?) { ReclaimFindsNoHolder(s, id, f); }
  }

  lemma {:induction false} ReclaimFindsNoHolder(s: System, id: RequestId, f: InFlight)
    requires At(s, ReclaimStep(id)) && Timely(s, ReclaimStep(id)) && FlightOk(s, f) && FlightOk(s, s.flights[id])
    requires Holds(f, s.flights[id].key)
    ensures !MayReclaim(s.records[f.key], s.flights[id].clock)
  {
  }

  lemma {:induction false} EndSparesFlight(s: System, step: Step, f: InFlight)
    requires At(s, step) && (step.CompleteStep? || step.CompleteUnseen? || step.FailStep?)
    requires FlightOk(s, f) && FlightOk(s, s.flights[step.id]) && !Holds(f, s.flights[step.id].key)
    ensures FlightOk(Do(s, step), f)
  {
  }

  lemma {:induction false} FlightsKept(s: System, step: Step, id: RequestId)
    requires Inv(s) && At(s, step) && Timely(s, step) && id in Do(s, step).flights
    ensures FlightOk(Do(s, step), Do(s, step).flights[id])
  {
    if !step.Tick? && id == step.id {
      OwnFlightKept(s, step);
    } else {
      AtFlight(s, id);
      assert Do(s, step).flights[id] == s.flights[id];
      FlightSpared(s, step, id);
    }
  }

  /** A step of another request, or of the clock. */
  lemma {:induction false} FlightSpared(s: System, step: Step, id: RequestId)
    requires Inv(s) && At(s, step) && Timely(s, step) && id in s.flights && (step.Tick? || id != step.id)
    ensures FlightOk(Do(s, step), s.flights[id])
  {
    AtFlight(s, id);
    if !step.Tick? && !step.Begin? { AtFlight(s, step.id); }
    hide FlightOk, HashesAgree, Outlasts, Decide, MayReclaim, Complete, Fail;
    match step
    case Tick(to) => TickSparesFlight(s, to, s.flights[id]);
    case CreateStep(own) => CreateSparesFlight(s, own, s.flights[id]);
    case ReclaimStep(own) => ReclaimSparesFlight(s, own, s.flights[id]);
    case CompleteStep(own, _, _) => NotBoth(s, own, id); EndSparesFlight(s, step, s.flights[id]);
    case CompleteUnseen(own, _, _) => NotBoth(s, own, id); EndSparesFlight(s, step, s.flights[id]);
    case FailStep(own) => NotBoth(s, own, id); EndSparesFlight(s, step, s.flights[id]);
    case _ => SameRecordsSpare(s, Do(s, step), s.flights[id]);
  }

  lemma {:induction false} SameRecordsSpare(s: System, u: System, f: InFlight)
    requires FlightOk(s, f) && u.records == s.records && u.now == s.now
    ensures FlightOk(u, f)
  {
  }

  lemma {:induction false} HolderKept(s: System, step: Step, p: RequestId, q: RequestId)
    requires Inv(s) && At(s, step) && Timely(s, step) && p != q && p in Do(s, step).flights && q in Do(s, step).flights
    requires Do(s, step).flights[p].Handling? || Do(s, step).flights[p].Failing?
    ensures !Holds(Do(s, step).flights[q], Do(s, step).flights[p].key)
  {
    var u := Do(s, step);
    hide Inv, Timely, FlightOk, Decide, MayReclaim, Complete, Fail, OneHolder;
    OneHolderOf(s);
    if step.Tick? || (p != step.id && q != step.id) {
      NotBoth(s, p, q);
    } else if p == step.id {
      NewHolderAlone(s, step, q);
    } else if Holds(u.flights[q], u.flights[p].key) {
      NewHolderAlone(s, step, p);
    }
  }

  lemma {:induction false} OneHolderOf(s: System)
    requires Inv(s)
    ensures OneHolder(s)
  {
  }

  lemma {:induction false} AtFlight(s: System, id: RequestId)
    requires Inv(s) && id in s.flights
    ensures FlightOk(s, s.flights[id])
  {
  }

  /** Who holds a key after its own step either held it before, or nobody else does. */
  lemma {:induction false} NewHolderAlone(s: System, step: Step, q: RequestId)
    requires Inv(s) && At(s, step) && Timely(s, step) && !step.Tick? && q != step.id && q in s.flights
    requires step.id in Do(s, step).flights
    requires Do(s, step).flights[step.id].Handling? || Do(s, step).flights[step.id].Failing?
    ensures !Holds(s.flights[q], Do(s, step).flights[step.id].key)
  {
    AtFlight(s, q);
    AtFlight(s, step.id);
    if step.ReclaimStep? {
      if Holds(s.flights[q], s.flights[step.id].key) { ReclaimFindsNoHolder(s, step.id, s.flights[q]); }
    } else if !step.CreateStep? {
      NotBoth(s, step.id, q);
    }
  }

  lemma {:induction false} StepKeeps(s: System, step: Step)
    requires Inv(s) && At(s, step) && Timely(s, step)
    ensures Inv(Do(s, step))
  {
    forall id | id in Do(s, step).flights ensures FlightOk(Do(s, step), Do(s, step).flights[id]) {
      FlightsKept(s, step, id);
    }
    var u := Do(s, step);
    forall p, q | p in u.flights && q in u.flights && p != q && (u.flights[p].Handling? || u.flights[p].Failing?)
      ensures !Holds(u.flights[q], u.flights[p].key)
    {
      HolderKept(s, step, p, q);
    }
    CodesKept(s, step);
    HashesKept(s, step);
  }

  lemma {:induction false} CodesKept(s: System, step: Step)
    requires Inv(s) && At(s, step)
    ensures forall key :: key in Do(s, step).records && Do(s, step).records[key].status == Completed ==>
              Do(s, step).records[key].responseCode.Some?
  {
  }

  /** At most one handler holds a key at any time of a timely run. */
  lemma {:induction false} RunKeeps(s: System, steps: seq<Step>)
    requires Inv(s) && ValidRun(s, steps) && TimelyRun(s, steps)
    ensures Inv(Run(s, steps))
    decreases |steps|
  {
    if |steps| > 0 {
      StepKeeps(s, steps[0]);
      RunKeeps(Do(s, steps[0]), steps[1..]);
    }
  }

  lemma {:induction false} CompletedStaysStep(s: System, step: Step, key: RecordKey)
    requires Inv(s) && At(s, step) && Timely(s, step) && key in s.records && s.records[key].status == Completed
    ensures key in Do(s, step).records && Do(s, step).records[key] == s.records[key]
  {
    match step
    case CompleteStep(id, _, _) => assert FlightOk(s, s.flights[id]);
    case CompleteUnseen(id, _, _) => assert FlightOk(s, s.flights[id]);
    case ReclaimStep(id) => assert FlightOk(s, s.flights[id]);
    case _ =>
  }

  lemma {:induction false} CompletedStays(s: System, steps: seq<Step>, key: RecordKey)
    requires Inv(s) && ValidRun(s, steps) && TimelyRun(s, steps)
    requires key in s.records && s.records[key].status == Completed
    ensures key in Run(s, steps).records && Run(s, steps).records[key] == s.records[key]
    decreases |steps|
  {
    if |steps| > 0 {
      StepKeeps(s, steps[0]);
      CompletedStaysStep(s, steps[0], key);
      CompletedStays(Do(s, steps[0]), steps[1..], key);
    }
  }

  /** A record that some request has just completed: from then on, in any timely run, every claim of
      the key that reaches the record is answered at once. A request that says the same as the
      completed one gets exactly its status and body; any other request gets a conflict. */
  lemma {:induction false} ReplaysForever(s: System, done: Step, steps: seq<Step>, first: Json, again: Json,
      id: RequestId)
    requires Inv(s) && At(s, done) && (done.CompleteStep? || done.CompleteUnseen?)
    requires ValidRun(Do(s, done), steps) && TimelyRun(Do(s, done), steps)
    requires WellFormed(first) && WellFormed(again)
    requires var key := s.flights[done.id].key;
             s.records[key].requestHash == Stable(first)
    requires var end := Run(Do(s, done), steps);
             id in end.flights && end.flights[id] == Finding(s.flights[done.id].key, Stable(again),
                 end.flights[id].expiresAt)
    ensures var end := Run(Do(s, done), steps);
            && s.flights[done.id].key in end.records
            && forall clock :: Decide(end.records[s.flights[done.id].key], Stable(again), clock)
                 == Some(if Meaning(again) == Meaning(first) then Replay(done.statusCode, done.body) else Conflict)
  {
    StepKeeps(s, done);
    CompletedStays(Do(s, done), steps, s.flights[done.id].key);
    SameTextIffSameMeaning(first, again);
  }

  // ---------- when requests are prompt ----------

  /** No claim in flight and no handler outlives an expiry: neither the one it computed itself nor,
      while it holds a row that it has read, the one of the row or the one the record has. */
  predicate Prompt(s: System, step: Step) {
    match step
    case Begin(_, _, _, ttlMs) => ttlMs > 0
    case Tick(to) => forall id :: id in s.flights ==> LivesUntil(s, s.flights[id], to)
    case _ => true
  }

  predicate LivesUntil(s: System, f: InFlight, to: int) {
    && to < f.expiresAt
    && (f.Found? && s.now < f.row.expiresAt ==> to < f.row.expiresAt)
    && (f.Found? && f.key in s.records && s.now < s.records[f.key].expiresAt ==> to < s.records[f.key].expiresAt)
  }

  predicate AllLive(s: System) { forall id :: id in s.flights ==> s.now < s.flights[id].expiresAt }

  predicate PromptRun(s: System, steps: seq<Step>)
    requires ValidRun(s, steps)
    decreases |steps|
  {
    |steps| > 0 ==> Prompt(s, steps[0]) && PromptRun(Do(s, steps[0]), steps[1..])
  }

  lemma {:induction false} PromptStepIsTimely(s: System, step: Step)
    requires Inv(s) && AllLive(s) && At(s, step) && Prompt(s, step)
    ensures Timely(s, step) && AllLive(Do(s, step))
  {
    match step
    case Tick(to) =>
      forall id | id in s.flights ensures Outlasts(s, s.flights[id], to) {
        assert FlightOk(s, s.flights[id]) && LivesUntil(s, s.flights[id], to);
      }
    case _ =>
  }

  /** The plain rule is enough: where no request outlives an expiry, the run is timely. */
  lemma {:induction false} PromptRunIsTimely(s: System, steps: seq<Step>)
    requires Inv(s) && AllLive(s) && ValidRun(s, steps) && PromptRun(s, steps)
    ensures TimelyRun(s, steps)
    decreases |steps|
  {
    if |steps| > 0 {
      PromptStepIsTimely(s, steps[0]);
      hide Prompt, Timely, Inv, AllLive;
      StepKeeps(s, steps[0]);
      PromptRunIsTimely(Do(s, steps[0]), steps[1..]);
    }
  }

  // ---------- why timeliness is needed ----------

  lemma {:induction false} First(s: System, step: Step, rest: seq<Step>)
    requires At(s, step) && ValidRun(Do(s, step), rest)
    ensures ValidRun(s, [step] + rest) && Run(s, [step] + rest) == Run(Do(s, step), rest)
    ensures TimelyRun(s, [step] + rest) <==> Timely(s, step) && TimelyRun(Do(s, step), rest)
  {
    assert ([step] + rest)[1..] == rest;
  }

  /** The five steps by which a new request with the same payload claims a record. */
  function ClaimSteps(b: RequestId, key: RecordKey, request: Json): seq<Step> {
    [Begin(b, key, request, 1)] + ([CreateStep(b)] + ([FindStep(b)] + ([DecideStep(b)] + ([ReclaimStep(b)] + []))))
  }

  /** A pending record past its expiry is claimed by any request with its payload, whoever holds it. */
  lemma {:induction false} ExpiredIsClaimed(s: System, key: RecordKey, b: RequestId, request: Json)
    requires key in s.records && s.records[key].status == Pending && s.records[key].expiresAt <= s.now
    requires s.records[key].requestHash == Stable(request) && b !in s.flights
    ensures var steps := ClaimSteps(b, key, request);
            && ValidRun(s, steps) && TimelyRun(s, steps)
            && Run(s, steps) == System(s.records[key := Fresh(Stable(request), s.now + 1)],
                                       s.flights[b := Handling(key, s.now + 1)], s.now)
  {
    var hash, at := Stable(request), s.now + 1;
    var s1 := s.(flights := s.flights[b := Creating(key, hash, at)]);
    var s2 := s.(flights := s.flights[b := Finding(key, hash, at)]);
    var s3 := s.(flights := s.flights[b := Found(key, hash, at, s.records[key])]);
    var s4 := s.(flights := s.flights[b := Reclaiming(key, hash, at, s.now)]);
    var s5 := System(s.records[key := Fresh(hash, at)], s.flights[b := Handling(key, at)], s.now);
    hide Do, At, Timely, Decide, MayReclaim;
    ReadingSteps(s, b, key, request);
    ReclaimingSteps(s, b, key, request);
    ClaimStepsAreAt(s, s1, s2, s3, s4, b, key, request);
    var last := [ReclaimStep(b)] + [];
    First(s4, ReclaimStep(b), []);
    First(s3, DecideStep(b), last);
    First(s2, FindStep(b), [DecideStep(b)] + last);
    First(s1, CreateStep(b), [FindStep(b)] + ([DecideStep(b)] + last));
    First(s, Begin(b, key, request, 1), [CreateStep(b)] + ([FindStep(b)] + ([DecideStep(b)] + last)));
  }

  lemma {:induction false} ReadingSteps(s: System, b: RequestId, key: RecordKey, request: Json)
    requires key in s.records && b !in s.flights
    ensures var hash, at := Stable(request), s.now + 1;
            var s1 := s.(flights := s.flights[b := Creating(key, hash, at)]);
            var s2 := s.(flights := s.flights[b := Finding(key, hash, at)]);
            && Do(s, Begin(b, key, request, 1)) == s1 && At(s1, CreateStep(b)) && Timely(s1, CreateStep(b))
            && Do(s1, CreateStep(b)) == s2 && At(s2, FindStep(b))
            && Do(s2, FindStep(b)) == s.(flights := s.flights[b := Found(key, hash, at, s.records[key])])
  {
    var hash, at := Stable(request), s.now + 1;
    Twice(s.flights, b, Creating(key, hash, at), Finding(key, hash, at));
    Twice(s.flights, b, Finding(key, hash, at), Found(key, hash, at, s.records[key]));
  }

  lemma {:induction false} ReclaimingSteps(s: System, b: RequestId, key: RecordKey, request: Json)
    requires key in s.records && s.records[key].status == Pending && s.records[key].expiresAt <= s.now
    requires s.records[key].requestHash == Stable(request)
    ensures var hash, at := Stable(request), s.now + 1;
            var s3 := s.(flights := s.flights[b := Found(key, hash, at, s.records[key])]);
            var s4 := s.(flights := s.flights[b := Reclaiming(key, hash, at, s.now)]);
            && At(s3, DecideStep(b)) && Do(s3, DecideStep(b)) == s4
            && At(s4, ReclaimStep(b)) && Timely(s4, ReclaimStep(b))
            && Do(s4, ReclaimStep(b))
               == System(s.records[key := Fresh(hash, at)], s.flights[b := Handling(key, at)], s.now)
  {
    var hash, at := Stable(request), s.now + 1;
    Twice(s.flights, b, Found(key, hash, at, s.records[key]), Reclaiming(key, hash, at, s.now));
    Twice(s.flights, b, Reclaiming(key, hash, at, s.now), Handling(key, at));
  }

  lemma {:induction false} Twice<K, V>(m: map<K, V>, k: K, x: V, y: V)
    ensures m[k := x][k := y] == m[k := y]
  {
  }

  lemma {:induction false} ClaimStepsAreAt(s: System, s1: System, s2: System, s3: System, s4: System, b: RequestId,
      key: RecordKey, request: Json)
    requires b !in s.flights && key in s.records
    requires b in s1.flights && s1.flights[b].Creating? && s1.flights[b].key == key
    requires b in s2.flights && s2.flights[b].Finding? && s2.flights[b].key == key && key in s2.records
    requires b in s3.flights && s3.flights[b].Found?
    requires b in s4.flights && s4.flights[b].Reclaiming? && s4.flights[b].key == key && key in s4.records
    ensures At(s, Begin(b, key, request, 1)) && At(s1, CreateStep(b)) && At(s2, FindStep(b)) && At(s3, DecideStep(b))
    ensures At(s4, ReclaimStep(b))
    ensures Timely(s, Begin(b, key, request, 1)) && Timely(s2, FindStep(b)) && Timely(s3, DecideStep(b))
  {
  }

  /** A handler that outlives its record's expiry shares the key with a second one, in any state: the
      time passes, and a request with the same payload takes its five timely steps. */
  lemma {:induction false} LateHandlerIsNotAlone(s: System, id: RequestId, to: int, b: RequestId, request: Json)
    requires Inv(s) && id in s.flights && s.flights[id].Handling? && s.flights[id].expiresAt <= to && s.now <= to
    requires b !in s.flights && Stable(request) == s.records[s.flights[id].key].requestHash
    ensures At(s, Tick(to)) && !Timely(s, Tick(to))
    ensures var u, steps := Do(s, Tick(to)), ClaimSteps(b, s.flights[id].key, request);
            ValidRun(u, steps) && TimelyRun(u, steps) && !OneHolder(Run(u, steps))
  {
    assert FlightOk(s, s.flights[id]);
    assert !Outlasts(s, s.flights[id], to);
    HolderDoubles(Do(s, Tick(to)), id, b, request);
  }

  /** The holder of an expired pending record is not alone for long. */
  lemma {:induction false} HolderDoubles(s: System, id: RequestId, b: RequestId, request: Json)
    requires id in s.flights && (s.flights[id].Handling? || s.flights[id].Failing?) && s.flights[id].key in s.records
    requires var r := s.records[s.flights[id].key];
             r.status == Pending && r.expiresAt <= s.now && r.requestHash == Stable(request)
    requires b !in s.flights
    ensures var steps := ClaimSteps(b, s.flights[id].key, request);
            ValidRun(s, steps) && TimelyRun(s, steps) && !OneHolder(Run(s, steps))
  {
    var key := s.flights[id].key;
    ExpiredIsClaimed(s, key, b, request);
    hide ClaimSteps, ValidRun, TimelyRun, Run;
    var u := Run(s, ClaimSteps(b, key, request));
    assert u.flights[id] == s.flights[id] && u.flights[b] == Handling(key, s.now + 1);
    assert Holds(u.flights[id], key) && u.flights[b].key == key;
  }

  /** A claim that has read the row before a completed record expires, and decides by it afterwards,
      erases the stored response, in any state, and its handler runs although the request has been
      answered. */
  lemma {:induction false} LateClaimErasesResponse(s: System, id: RequestId, to: int)
    requires Inv(s) && id in s.flights && GoesOn(s.flights[id], to)
    requires s.records[s.flights[id].key].status == Completed
    requires s.records[s.flights[id].key].expiresAt <= to < s.flights[id].expiresAt && s.now <= to
    ensures At(s, Tick(to)) && !Timely(s, Tick(to))
    ensures var u, steps, f := Do(s, Tick(to)), [DecideStep(id)] + ([ReclaimStep(id)] + []), s.flights[id];
            && ValidRun(u, steps) && TimelyRun(u, steps)
            && Run(u, steps) == System(s.records[f.key := Fresh(f.hash, f.expiresAt)],
                s.flights[id := Handling(f.key, f.expiresAt)], to)
  {
    assert FlightOk(s, s.flights[id]);
    assert !Outlasts(s, s.flights[id], to);
    var f, u := s.flights[id], Do(s, Tick(to));
    var v := u.(flights := u.flights[id := Reclaiming(f.key, f.hash, f.expiresAt, to)]);
    assert Do(u, DecideStep(id)) == v;
    assert v.flights[id := Handling(f.key, f.expiresAt)] == s.flights[id := Handling(f.key, f.expiresAt)];
    First(v, ReclaimStep(id), []);
    First(u, DecideStep(id), [ReclaimStep(id)] + []);
  }

  // ---------- exactly when a step is safe ----------

  /** The hash belongs to some payload. */
  ghost predicate Says(hash: Text) { exists request: Json :: Stable(request) == hash }

  predicate Claiming(f: InFlight) { f.Creating? || f.Finding? || f.Found? || f.Reclaiming? }

  ghost predicate Spoken(s: System) {
    && (forall key :: key in s.records ==> Says(s.records[key].requestHash))
    && (forall id :: id in s.flights && Claiming(s.flights[id]) ==> Says(s.flights[id].hash))
  }

  lemma {:induction false} SpokenKept(s: System, step: Step)
    requires Spoken(s) && At(s, step)
    ensures Spoken(Do(s, step))
  {
    if step.Begin? { assert Says(Stable(step.request)); }
    hide Says;
  }

  /** Every state that a timely run reaches from the empty system keeps the invariant, and each of its
      hashes is of some payload. */
  lemma {:induction false} ReachedIsKept(now: int, steps: seq<Step>)
    requires ValidRun(System(map[], map[], now), steps) && TimelyRun(System(map[], map[], now), steps)
    ensures Inv(Run(System(map[], map[], now), steps)) && Spoken(Run(System(map[], map[], now), steps))
  {
    StartsEmpty(now);
    RunKeeps(System(map[], map[], now), steps);
    RunSpoken(System(map[], map[], now), steps);
  }

  lemma {:induction false} RunSpoken(s: System, steps: seq<Step>)
    requires Spoken(s) && ValidRun(s, steps)
    ensures Spoken(Run(s, steps))
    decreases |steps|
  {
    if |steps| > 0 {
      SpokenKept(s, steps[0]);
      RunSpoken(Do(s, steps[0]), steps[1..]);
    }
  }

  /** What the protocol promises of a later state: one holder a key, and no stored response lost. */
  predicate Promised(before: System, after: System) {
    && OneHolder(after)
    && forall key :: key in before.records && before.records[key].status == Completed ==>
         key in after.records && after.records[key] == before.records[key]
  }

  lemma {:induction false} TimelyStepIsSafe(s: System, step: Step, steps: seq<Step>)
    requires Inv(s) && At(s, step) && Timely(s, step) && ValidRun(Do(s, step), steps) && TimelyRun(Do(s, step), steps)
    ensures Promised(s, Run(Do(s, step), steps))
  {
    hide Do, At, Timely, FlightOk, HashesAgree;
    StepKeeps(s, step);
    RunKeeps(Do(s, step), steps);
    forall key | key in s.records && s.records[key].status == Completed
      ensures key in Run(Do(s, step), steps).records && Run(Do(s, step), steps).records[key] == s.records[key]
    {
      CompletedStaysStep(s, step, key);
      CompletedStays(Do(s, step), steps, key);
    }
  }

  /** A claim that becomes a handler after its own expiry: the record it leaves has expired. */
  lemma {:induction false} LateHandlerDoubles(s: System, step: Step, id: RequestId, b: RequestId)
    returns (steps: seq<Step>)
    requires Inv(s) && Spoken(s) && At(s, step) && b !in s.flights && id in s.flights
    requires s.flights[id].expiresAt <= s.now
    requires step == CreateStep(id) || step == ReclaimStep(id)
    requires step.CreateStep? ==> s.flights[id].key !in s.records
    requires step.ReclaimStep? ==> MayReclaim(s.records[s.flights[id].key], s.flights[id].clock)
    ensures ValidRun(Do(s, step), steps) && TimelyRun(Do(s, step), steps) && !OneHolder(Run(Do(s, step), steps))
  {
    var f := s.flights[id];
    var request: Json :| Stable(request) == f.hash;
    var u := Do(s, step);
    assert u.flights[id] == Handling(f.key, f.expiresAt) && u.records[f.key] == Fresh(f.hash, f.expiresAt)
        && u.now == s.now;
    assert b !in u.flights;
    hide Do, At, ValidRun, TimelyRun, Run, ClaimSteps, OneHolder;
    HolderDoubles(u, id, b, request);
    steps := ClaimSteps(b, f.key, request);
  }

  lemma {:induction false} LateTickBreaks(s: System, to: int, id: RequestId, b: RequestId) returns (steps: seq<Step>)
    requires Inv(s) && Spoken(s) && s.now <= to && id in s.flights && !Outlasts(s, s.flights[id], to) && b !in s.flights
    ensures var u := Do(s, Tick(to)); ValidRun(u, steps) && TimelyRun(u, steps) && !Promised(s, Run(u, steps))
  {
    var f := s.flights[id];
    assert FlightOk(s, f);
    if f.Found? {
      LateClaimErasesResponse(s, id, to);
      steps := [DecideStep(id)] + ([ReclaimStep(id)] + []);
    } else {
      var request: Json :| Stable(request) == s.records[f.key].requestHash;
      hide ClaimSteps, ValidRun, TimelyRun, Run, OneHolder;
      HolderDoubles(Do(s, Tick(to)), id, b, request);
      steps := ClaimSteps(b, f.key, request);
    }
  }

  lemma {:induction false} LateStepBreaks(s: System, step: Step, b: RequestId) returns (steps: seq<Step>)
    requires Inv(s) && Spoken(s) && At(s, step) && !Timely(s, step) && b !in s.flights
    ensures ValidRun(Do(s, step), steps) && TimelyRun(Do(s, step), steps) && !Promised(s, Run(Do(s, step), steps))
  {
    hide Inv, Spoken, Do, ValidRun, TimelyRun, Run, OneHolder;
    match step {
      case Tick(to) =>
        var id :| id in s.flights && !Outlasts(s, s.flights[id], to);
        steps := LateTickBreaks(s, to, id, b);
      case CreateStep(id) => steps := LateHandlerDoubles(s, step, id, b);
      case ReclaimStep(id) => steps := LateHandlerDoubles(s, step, id, b);
      case _ => assert false;
    }
  }

  /** The exact condition, step by step: whatever timely steps follow, no key has two holders and no
      stored response is lost, if and only if this step is timely. `b` is a request yet to come. */
  lemma {:induction false} StepIsSafeIff(s: System, step: Step, b: RequestId)
    requires Inv(s) && Spoken(s) && At(s, step) && b !in s.flights
    ensures (forall steps :: ValidRun(Do(s, step), steps) && TimelyRun(Do(s, step), steps) ==>
        Promised(s, Run(Do(s, step), steps)))
       <==> Timely(s, step)
  {
    hide Inv, Spoken, At, Do, Timely, ValidRun, TimelyRun, Run, Promised;
    if Timely(s, step) {
      forall steps | ValidRun(Do(s, step), steps) && TimelyRun(Do(s, step), steps) ensures Promised(s,
          Run(Do(s, step), steps)) {
        TimelyStepIsSafe(s, step, steps);
      }
    } else {
      var steps := LateStepBreaks(s, step, b);
    }
  }

  // ---------- the late claim is reached ----------

  lemma {:induction false} Joined(s: System, xs: seq<Step>, ys: seq<Step>)
    requires ValidRun(s, xs) && TimelyRun(s, xs) && ValidRun(Run(s, xs), ys) && TimelyRun(Run(s, xs), ys)
    ensures ValidRun(s, xs + ys) && TimelyRun(s, xs + ys) && Run(s, xs + ys) == Run(Run(s, xs), ys)
    decreases |xs|
  {
    if xs == [] {
      assert xs + ys == ys;
    } else {
      Joined(Do(s, xs[0]), xs[1..], ys);
      assert (xs + ys)[1..] == xs[1..] + ys;
    }
  }

  /** One more step at the end. */
  lemma {:induction false} Then(s: System, steps: seq<Step>, t: System, step: Step) returns (more: seq<Step>)
    requires ValidRun(s, steps) && TimelyRun(s, steps) && Run(s, steps) == t && At(t, step) && Timely(t, step)
    ensures ValidRun(s, more) && TimelyRun(s, more) && Run(s, more) == Do(t, step)
  {
    First(t, step, []);
    more := steps + ([step] + []);
    Joined(s, steps, [step] + []);
  }

  lemma {:induction false} HandlerIsReached(key: RecordKey, a: RequestId) returns (steps: seq<Step>)
    ensures var s := System(map[], map[], 0);
            && ValidRun(s, steps) && TimelyRun(s, steps)
            && Run(s, steps) == System(map[key := Fresh(NULL, 5)], map[a := Handling(key, 5)], 0)
  {
    var s0 := System(map[], map[], 0);
    var s1 := System(map[], map[a := Creating(key, NULL, 5)], 0);
    steps := Then(s0, [], s0, Begin(a, key, Null, 5));
    steps := Then(s0, steps, s1, CreateStep(a));
  }

  /** A request `a` holds the key, and the claim of `b`, which asks for more time, has read its row. */
  lemma {:induction false} PendingIsRead(key: RecordKey, a: RequestId, b: RequestId) returns (steps: seq<Step>)
    requires a != b
    ensures var s := System(map[], map[], 0);
            && ValidRun(s, steps) && TimelyRun(s, steps)
            && Run(s, steps) == System(map[key := Fresh(NULL, 5)],
                map[a := Handling(key, 5), b := Found(key, NULL, 100, Fresh(NULL, 5))], 0)
  {
    var s0 := System(map[], map[], 0);
    var s2 := System(map[key := Fresh(NULL, 5)], map[a := Handling(key, 5)], 0);
    var s3 := s2.(flights := map[a := Handling(key, 5), b := Creating(key, NULL, 100)]);
    var s4 := s2.(flights := map[a := Handling(key, 5), b := Finding(key, NULL, 100)]);
    steps := HandlerIsReached(key, a);
    hide ValidRun, TimelyRun, Run;
    steps := Then(s0, steps, s2, Begin(b, key, Null, 100));
    steps := Then(s0, steps, s3, CreateStep(b));
    steps := Then(s0, steps, s4, FindStep(b));
  }

  /** Then `a` completes the record. So a timely run from the empty system leaves `b` with the row of a
      pending record that has been completed since, as LateClaimErasesResponse asks. */
  lemma {:induction false} LateClaimIsReached(key: RecordKey, a: RequestId, b: RequestId, body: Value)
    returns (steps: seq<Step>)
    requires a != b
    ensures var s := System(map[], map[], 0);
            && ValidRun(s, steps) && TimelyRun(s, steps)
            && Run(s, steps) == System(map[key := Record(NULL, Completed, Some(201), body, 5)],
                map[b := Found(key, NULL, 100, Fresh(NULL, 5))], 0)
    ensures GoesOn(Found(key, NULL, 100, Fresh(NULL, 5)), 5)
  {
    var s0 := System(map[], map[], 0);
    var late := Found(key, NULL, 100, Fresh(NULL, 5));
    var s5 := System(map[key := Fresh(NULL, 5)], map[a := Handling(key, 5), b := late], 0);
    assert s5.flights - {a} == map[b := late];
    steps := PendingIsRead(key, a, b);
    hide ValidRun, TimelyRun, Run;
    steps := Then(s0, steps, s5, CompleteStep(a, 201, body));
  }

  // ---------- a claim that nothing interrupts ----------

  /** What the step tells the request's caller, if it ends the claim. */
  function AnswerOf(s: System, step: Step): Option<Reply>
    requires At(s, step)
  {
    match step
    case CreateStep(id) => if s.flights[id].key in s.records then None else Some(Claimed)
    case DecideStep(id) => Decide(s.flights[id].row, s.flights[id].hash, s.now)
    case ReclaimStep(id) =>
      Some(if MayReclaim(s.records[s.flights[id].key], s.flights[id].clock) then Claimed else Conflict)
    case _ => None
  }

  /** The first answer of a run. */
  function Answer(s: System, steps: seq<Step>): Option<Reply>
    requires ValidRun(s, steps)
    decreases |steps|
  {
    if |steps| == 0 then None
    else if AnswerOf(s, steps[0]).Some? then AnswerOf(s, steps[0])
    else Answer(Do(s, steps[0]), steps[1..])
  }

  /** All the steps a claim can take. */
  function ClaimRun(id: RequestId, key: RecordKey, request: Json, ttlMs: int): seq<Step> {
    [Begin(id, key, request, ttlMs), CreateStep(id), FindStep(id), DecideStep(id), ReclaimStep(id)]
  }

  lemma {:induction false} Ahead(s: System, step: Step, rest: seq<Step>)
    requires At(s, step) && ValidRun(Do(s, step), rest)
    ensures ValidRun(s, [step] + rest) && Run(s, [step] + rest) == Run(Do(s, step), rest)
    ensures Answer(s, [step] + rest)
         == if AnswerOf(s, step).Some? then AnswerOf(s, step) else Answer(Do(s, step), rest)
  {
    assert ([step] + rest)[1..] == rest;
  }

  /** The part of the claim that finds the row taken. */
  lemma {:induction false} FoundIsRun(s: System, id: RequestId, key: RecordKey, hash: Text, at: int)
    returns (n: nat)
    requires key in s.records && id !in s.flights
    ensures n <= 2
    ensures var u := s.(flights := s.flights[id := Found(key, hash, at, s.records[key])]);
            var steps := [DecideStep(id), ReclaimStep(id)][..n];
            var (reply, records) := ClaimFound(s.records, key, hash, at, s.now);
            && ValidRun(u, steps) && Answer(u, steps) == Some(reply)
            && Run(u, steps) == System(records,
                 if reply == Claimed then s.flights[id := Handling(key, at)] else s.flights, s.now)
  {
    var f := Found(key, hash, at, s.records[key]);
    var u := s.(flights := s.flights[id := f]);
    assert u.flights - {id} == s.flights;
    if Decide(s.records[key], hash, s.now).Some? {
      n := 1;
      assert [DecideStep(id), ReclaimStep(id)][..1] == [DecideStep(id)] + [];
      Ahead(u, DecideStep(id), []);
    } else {
      n := 2;
      var v := s.(flights := s.flights[id := Reclaiming(key, hash, at, s.now)]);
      Twice(s.flights, id, f, v.flights[id]);
      Twice(s.flights, id, v.flights[id], Handling(key, at));
      assert v.flights - {id} == s.flights;
      assert [DecideStep(id), ReclaimStep(id)][..2] == [DecideStep(id)] + ([ReclaimStep(id)] + []);
      assert Do(u, DecideStep(id)) == v;
      Ahead(v, ReclaimStep(id), []);
      Ahead(u, DecideStep(id), [ReclaimStep(id)] + []);
    }
  }

  /** A claim that nothing interrupts is a run of these steps, as many as it takes: its reply is the
      answer of that run, its records are the ones the run leaves, and the request holds the key
      afterwards exactly when it was told so. */
  lemma {:induction false} AloneIsRun(s: System, id: RequestId, key: RecordKey, request: Json, ttlMs: int)
    returns (n: nat)
    requires id !in s.flights
    ensures n <= 5 && ValidRun(s, ClaimRun(id, key, request, ttlMs)[..n])
    ensures var steps := ClaimRun(id, key, request, ttlMs)[..n];
            var (reply, records) := ClaimAlone(s.records, key, Stable(request), s.now + ttlMs, s.now);
            && Answer(s, steps) == Some(reply)
            && Run(s, steps) == System(records,
                 if reply == Claimed then s.flights[id := Handling(key, s.now + ttlMs)] else s.flights, s.now)
  {
    var hash, at := Stable(request), s.now + ttlMs;
    var s1 := s.(flights := s.flights[id := Creating(key, hash, at)]);
    var all := ClaimRun(id, key, request, ttlMs);
    assert Do(s, all[0]) == s1;
    if key !in s.records {
      n := 2;
      Twice(s.flights, id, s1.flights[id], Handling(key, at));
      assert all[..2] == [Begin(id, key, request, ttlMs)] + ([CreateStep(id)] + []);
      Ahead(s1, CreateStep(id), []);
      Ahead(s, Begin(id, key, request, ttlMs), [CreateStep(id)] + []);
    } else {
      var s2 := s.(flights := s.flights[id := Finding(key, hash, at)]);
      var s3 := s.(flights := s.flights[id := Found(key, hash, at, s.records[key])]);
      Twice(s.flights, id, s1.flights[id], s2.flights[id]);
      Twice(s.flights, id, s2.flights[id], s3.flights[id]);
      assert Do(s1, CreateStep(id)) == s2 && Do(s2, FindStep(id)) == s3;
      var m := FoundIsRun(s, id, key, hash, at);
      var rest := [DecideStep(id), ReclaimStep(id)][..m];
      n := m + 3;
      Ahead(s2, FindStep(id), rest);
      Ahead(s1, CreateStep(id), [FindStep(id)] + rest);
      Ahead(s, Begin(id, key, request, ttlMs), [CreateStep(id)] + ([FindStep(id)] + rest));
      assert all[..n] == [Begin(id, key, request, ttlMs)] + ([CreateStep(id)] + ([FindStep(id)] + rest));
    }
  }

  /** Its reply and the record it leaves, by the record it finds. */
  lemma {:induction false} AloneSays(rs: Records, key: RecordKey, hash: Text, expiresAt: int, now: int)
    ensures var taken := (Claimed, rs[key := Record(hash, Pending, None, VNull, expiresAt)]);
            var answer := ClaimAlone(rs, key, hash, expiresAt, now);
            && (key !in rs ==> answer == taken)
            && (key in rs && rs[key].requestHash != hash ==> answer == (Conflict, rs))
            && (key in rs && rs[key].requestHash == hash ==>
                  match rs[key].status
                  case Completed =>
                    answer.1 == rs && answer.0.Replay? && answer.0.body == rs[key].responseBody
                    && (rs[key].responseCode.Some? ==> answer.0.statusCode == rs[key].responseCode.value)
                    && (rs[key].responseCode.None? ==> answer.0.statusCode == 200)
                  case Pending => answer == if rs[key].expiresAt <= now then taken else (Conflict, rs)
                  case Failed => answer == taken)
  {
  }

  /** After a completion the same payload is answered what was stored, at any time, and any other
      payload gets a conflict; the records stay. */
  lemma {:induction false} CompletedIsReplayed(rs: Records, key: RecordKey, first: Json, again: Json, code: int,
      body: Value, expiresAt: int, now: int)
    requires key in rs && rs[key].requestHash == Stable(first) && WellFormed(first) && WellFormed(again)
    ensures var done := Complete(rs, key, code, body);
            ClaimAlone(done, key, Stable(again), expiresAt, now)
              == (if Meaning(again) == Meaning(first) then Replay(code, body) else Conflict, done)
  {
    SameTextIffSameMeaning(first, again);
  }

  /** After a failure the same payload is claimed again, at any time, for the time it asks. */
  lemma {:induction false} FailedIsClaimed(rs: Records, key: RecordKey, first: Json, again: Json, expiresAt: int,
      now: int)
    requires key in rs && rs[key].requestHash == Stable(first) && WellFormed(first) && WellFormed(again)
    requires rs[key].status == Pending && Meaning(again) == Meaning(first)
    ensures var (reply, records) := ClaimAlone(Fail(rs, key), key, Stable(again), expiresAt, now);
            && reply == Claimed && records.Keys == rs.Keys && records[key].status == Pending
            && records[key].responseCode == None && records[key].expiresAt == expiresAt
            && forall k :: k in rs && k != key ==> records[k] == rs[k]
  {
    SameTextIffSameMeaning(first, again);
  }
}
