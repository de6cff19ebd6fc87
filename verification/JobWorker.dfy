/** How a worker drives the job table: one turn claims a job, runs its handler, closes the attempt. */
module JobWorker {
  import opened Backoff
  import opened Basics
  import opened JobRuns
  import opened JobTable
  import opened JobTimes
  import opened MemoryPressure
  import opened Wrappers

  /** A handler may bring its own lease and retry settings. */
  datatype HandlerPolicy = HandlerPolicy(leaseMs: Option<int>, baseDelayMs: Option<real>, maxDelayMs: Option<real>,
      jitterRatio: Option<real>)

  datatype Handler = Handler(policy: Option<HandlerPolicy>)

  datatype Result = Returned(processedCount: Option<int>) | Threw(name: string)

  /** What happens while the worker waits: any steps of others after the claim, while the handler
      runs and while progress is reported; what the handler comes to; and the clock and the random
      number at the end. */
  datatype World = World(afterClaim: seq<Step>, duringHandler: seq<Step>, afterReport: seq<Step>, result: Result,
      endedAt: int, random: real)

  const DEFAULT_POLICY: RetryPolicy := RetryPolicy(1_000.0, 900_000.0, 0.2)
  const PROGRESS_ERROR: string := "Error"

  function OrElse<T>(o: Option<T>, default: T): T { if o.Some? then o.value else default }

  function RetryPolicyOf(h: Handler, own: RetryPolicy): RetryPolicy {
    match h.policy
    case None => own
    case Some(p) =>
      RetryPolicy(OrElse(p.baseDelayMs, DEFAULT_POLICY.baseDelayMs), OrElse(p.maxDelayMs, DEFAULT_POLICY.maxDelayMs),
                  OrElse(p.jitterRatio, DEFAULT_POLICY.jitterRatio))
  }

  function LeaseMsOf(h: Handler, own: int): int { if h.policy.Some? then OrElse(h.policy.value.leaseMs, own) else own }

  function RetryAt(endedAt: int, policy: RetryPolicy, attempts: nat, random: real): int {
    endedAt + RetryDelayMs(policy, attempts, random).Floor
  }

  /** The table when the handler has come to its end. */
  function AtHandlerEnd(t: Table, id: JobId, lease: Lease, leaseMs: int, now: int, world: World): Table {
    Run(Beat(Run(t, world.afterClaim), id, lease, leaseMs, now), world.duringHandler)
  }

  predicate Fulfilled(world: World) {
    && world.result.Returned?
    && (Counted(world) ==> IsProgress(world.result.processedCount.value, world.result.processedCount))
  }

  predicate Counted(world: World) { world.result.Returned? && world.result.processedCount.Some? }

  /** The table after the report of a proper count. */
  function ReportedCount(t: Table, id: JobId, lease: Lease, world: World): Table
    requires Fulfilled(world) && Counted(world)
  {
    Report(t, id, lease, ProgressOf(world.result.processedCount.value, world.result.processedCount, None))
  }

  /** The table just before the attempt is closed. */
  function BeforeClosing(t: Table, id: JobId, lease: Lease, world: World): Table {
    if Fulfilled(world) && Counted(world) then Run(ReportedCount(t, id, lease, world), world.afterReport) else t
  }

  /** The attempt closed: completed where the handler fulfilled it, else given back. */
  function Close(t: Table, id: JobId, lease: Lease, retryAt: int, world: World): Table {
    if Fulfilled(world) then Succeed(t, id, lease, world.endedAt)
    else GiveBack(t, id, lease, retryAt, if world.result.Threw? then world.result.name else PROGRESS_ERROR,
        world.endedAt)
  }

  function Closed(t: Table, id: JobId, lease: Lease, retryAt: int, world: World): Table {
    Close(BeforeClosing(t, id, lease, world), id, lease, retryAt, world)
  }

  class Worker {
    const workerId: WorkerId
    const leaseMs: int
    const policy: RetryPolicy
    const repository: JobRepository
    const pressure: MemoryPressureService
    const handlers: map<JobType, Handler>

    constructor (workerId: WorkerId, leaseMs: int, policy: RetryPolicy, repository: JobRepository,
        pressure: MemoryPressureService, handlers: map<JobType, Handler>)
      ensures this.workerId == workerId && this.leaseMs == leaseMs && this.policy == policy
      ensures this.repository == repository && this.pressure == pressure && this.handlers == handlers
    {
      this.workerId, this.leaseMs, this.policy := workerId, leaseMs, policy;
      this.repository, this.pressure, this.handlers := repository, pressure, handlers;
    }

    /** The steps other workers make while this one waits. */
    method Await(steps: seq<Step>)
      modifies repository
      ensures repository.Rows() == Run(old(repository.Rows()), steps)
    {
      var t := Run(repository.Rows(), steps);
      repository.jobs := t.jobs;
      repository.ledger := t.ledger;
    }

    method AdmittedPriorities() returns (priorities: set<Priority>)
      ensures priorities == Admitted(pressure.levelValue)
    {
      priorities := {};
      var all := [Critical, Priority.High, Normal, Low];
      for i := 0 to |all|
        invariant priorities == set p | p in all[..i] && p in Admitted(pressure.levelValue)
      {
        var admitted := pressure.CanAdmit(all[i]);
        if admitted { priorities := priorities + {all[i]}; }
      }
      assert all[0] == Critical && all[1] == Priority.High && all[2] == Normal && all[3] == Low && all[..|all|] == all;
    }

    /** One turn. `job` is the job it worked on, under `lease`. */
    method RunOnce(now: int, world: World) returns (processed: bool, job: JobId, lease: Lease, ghost page: seq<JobId>)
      modifies repository
      ensures !processed && handlers == map[] ==> repository.Rows() == old(repository.Rows())
      ensures !processed && handlers != map[] ==>
        && IsExpiredPage(old(repository.jobs), now, page)
        && repository.Rows() == RecoverAll(old(repository.Rows()), page, now)
        && MayChoose(repository.jobs, None, now, Admitted(pressure.levelValue), handlers.Keys)
      ensures processed ==>
        && IsExpiredPage(old(repository.jobs), now, page)
        && var t := RecoverAll(old(repository.Rows()), page, now);
           && IsNext(t.jobs, job, now, Admitted(pressure.levelValue), handlers.Keys)
           && lease == Lease(workerId, t.jobs[job].leaseVersion + 1)
           && t.jobs[job].kind in handlers
           && var h := handlers[t.jobs[job].kind];
              repository.Rows() == Closed(
                AtHandlerEnd(Take(t, job, workerId, leaseMs, now), job, lease, LeaseMsOf(h, leaseMs), now, world),
                job, lease,
                RetryAt(world.endedAt, RetryPolicyOf(h, policy), t.jobs[job].attempts + 1, world.random), world)
    {
      hide Run, Beat, Report, Succeed, GiveBack, RecoverAll, RetryAt, RetryPolicyOf, IsExpiredPage;
      var priorities := AdmittedPriorities();
      var choice;
      choice, page := repository.ClaimNext(workerId, leaseMs, now, priorities, handlers.Keys);
      if choice == None { return false, "", Lease(workerId, 0), page; }
      processed, job := true, choice.value;
      var row := repository.jobs[job];
      lease := Lease(workerId, row.leaseVersion);
      Await(world.afterClaim);
      var handler := handlers[row.kind];
      var _ := repository.Heartbeat(job, lease, LeaseMsOf(handler, leaseMs), now);
      Await(world.duringHandler);
      var retryAt := RetryAt(world.endedAt, RetryPolicyOf(handler, policy), row.attempts, world.random);
      match world.result {
        case Threw(name) =>
          var _ := repository.RetryOrFail(job, lease, retryAt, name, world.endedAt);
        case Returned(count) =>
          if count.Some? {
            var valid, _ := repository.ReportProgress(job, lease, count.value, count, None);
            if !valid {
              var _ := repository.RetryOrFail(job, lease, retryAt, PROGRESS_ERROR, world.endedAt);
              return;
            }
            Await(world.afterReport);
          }
          var _ := repository.Complete(job, lease, world.endedAt);
      }
    }
  }

  // ---------- what a turn leaves behind ----------

  /** Whatever the others do and however the handler ends, the worker keeps no lease. */
  lemma {:induction false} NoLeaseLeft(t: Table, id: JobId, lease: Lease, retryAt: int, world: World)
    ensures !Owns(Closed(t, id, lease, retryAt, world), id, lease)
  {
    hide BeforeClosing;
  }

  /** Once the lease is lost, closing the attempt changes nothing: only the others' steps remain. */
  lemma {:induction false} LostLeaseChangesNothing(t: Table, id: JobId, lease: Lease, retryAt: int, world: World)
    requires Dead(t, id, lease.version) && ValidRun(t, world.afterReport)
    ensures Closed(t, id, lease, retryAt, world)
         == if Fulfilled(world) && Counted(world) then Run(t, world.afterReport) else t
  {
    RunDead(t, world.afterReport, id, lease.version);
    hide Run;
  }

  /** The others' steps are possible ones, at each of the worker's waits. */
  ghost predicate Possible(t: Table, id: JobId, lease: Lease, leaseMs: int, now: int, world: World) {
    && ValidRun(t, world.afterClaim)
    && ValidRun(Beat(Run(t, world.afterClaim), id, lease, leaseMs, now), world.duringHandler)
    && (Fulfilled(world) && Counted(world) ==>
          ValidRun(ReportedCount(AtHandlerEnd(t, id, lease, leaseMs, now, world), id, lease, world), world.afterReport))
  }

  /** None of them ends the lease. */
  ghost predicate SparesTurn(t: Table, id: JobId, lease: Lease, leaseMs: int, now: int, world: World) {
    && Spares(t, world.afterClaim, id, lease)
    && Spares(Beat(Run(t, world.afterClaim), id, lease, leaseMs, now), world.duringHandler, id, lease)
    && (Fulfilled(world) && Counted(world) ==>
          Spares(ReportedCount(AtHandlerEnd(t, id, lease, leaseMs, now, world), id, lease, world), world.afterReport,
              id, lease))
  }

  /** Every claim and recovery among them comes no later than the lease's expiry at that moment, as
      the heartbeats, the worker's own included, have moved it. */
  ghost predicate InTimeForTurn(t: Table, id: JobId, lease: Lease, leaseMs: int, now: int, world: World) {
    && InTime(t, world.afterClaim, id, lease)
    && InTime(Beat(Run(t, world.afterClaim), id, lease, leaseMs, now), world.duringHandler, id, lease)
    && (Fulfilled(world) && Counted(world) ==>
          InTime(ReportedCount(AtHandlerEnd(t, id, lease, leaseMs, now, world), id, lease, world), world.afterReport,
              id, lease))
  }

  /** The ledger is kept up to the closing of the attempt. */
  lemma {:induction false} LedgerBeforeClosing(t: Table, id: JobId, lease: Lease, leaseMs: int, now: int, world: World)
    requires Inv(t) && Possible(t, id, lease, leaseMs, now, world)
    ensures Inv(BeforeClosing(AtHandlerEnd(t, id, lease, leaseMs, now, world), id, lease, world))
  {
    hide Inv, Run, ValidRun, Report;
    RunKeeps(t, world.afterClaim);
    var claimed := Run(t, world.afterClaim);
    StepKeeps(claimed, HeartbeatStep(id, lease, leaseMs, now));
    RunKeeps(Beat(claimed, id, lease, leaseMs, now), world.duringHandler);
    if Fulfilled(world) && Counted(world) {
      var u := AtHandlerEnd(t, id, lease, leaseMs, now, world);
      var progress := ProgressOf(world.result.processedCount.value, world.result.processedCount, None);
      StepKeeps(u, ProgressStep(id, lease, progress));
      RunKeeps(Report(u, id, lease, progress), world.afterReport);
    }
  }

  /** The calls of a turn keep the ledger as long as the others' steps are possible ones. */
  lemma {:induction false} TurnKeepsLedger(t: Table, id: JobId, lease: Lease, leaseMs: int, now: int, retryAt: int,
      world: World)
    requires Inv(t) && Possible(t, id, lease, leaseMs, now, world)
    ensures Inv(Closed(AtHandlerEnd(t, id, lease, leaseMs, now, world), id, lease, retryAt, world))
  {
    LedgerBeforeClosing(t, id, lease, leaseMs, now, world);
    hide Inv, BeforeClosing, AtHandlerEnd, Possible, Succeed, GiveBack, Fulfilled;
    var v := BeforeClosing(AtHandlerEnd(t, id, lease, leaseMs, now, world), id, lease, world);
    SucceedKeeps(v, id, lease, world.endedAt);
    GiveBackKeeps(v, id, lease, retryAt, if world.result.Threw? then world.result.name else PROGRESS_ERROR,
        world.endedAt);
  }

  lemma {:induction false} BeatKeepsLease(t: Table, id: JobId, lease: Lease, leaseMs: int, now: int)
    requires Owns(t, id, lease)
    ensures Owns(Beat(t, id, lease, leaseMs, now), id, lease)
    ensures SameAttempt(Beat(t, id, lease, leaseMs, now).jobs[id], t.jobs[id])
  {
  }

  lemma {:induction false} ReportKeepsLease(t: Table, id: JobId, lease: Lease, progress: Progress)
    requires Owns(t, id, lease)
    ensures Owns(Report(t, id, lease, progress), id, lease)
    ensures SameAttempt(Report(t, id, lease, progress).jobs[id], t.jobs[id])
  {
  }

  lemma {:induction false} SameAttemptTransitive(a: Job, b: Job, c: Job)
    requires SameAttempt(a, b) && SameAttempt(b, c)
    ensures SameAttempt(a, c)
  {
  }

  /** Spared, the lease is the worker's until it closes the attempt. */
  lemma {:induction false} LeaseUntilClosing(t: Table, id: JobId, lease: Lease, leaseMs: int, now: int, world: World)
    requires Owns(t, id, lease) && Possible(t, id, lease, leaseMs, now, world)
    requires SparesTurn(t, id, lease, leaseMs, now, world)
    ensures var v := BeforeClosing(AtHandlerEnd(t, id, lease, leaseMs, now, world), id, lease, world);
            Owns(v, id, lease) && SameAttempt(v.jobs[id], t.jobs[id])
  {
    hide Run, ValidRun, Spares, SameAttempt, Beat, Report;
    LeaseKept(t, world.afterClaim, id, lease);
    var t1 := Run(t, world.afterClaim);
    BeatKeepsLease(t1, id, lease, leaseMs, now);
    var t2 := Beat(t1, id, lease, leaseMs, now);
    LeaseKept(t2, world.duringHandler, id, lease);
    var t3 := Run(t2, world.duringHandler);
    SameAttemptTransitive(t2.jobs[id], t1.jobs[id], t.jobs[id]);
    SameAttemptTransitive(t3.jobs[id], t2.jobs[id], t.jobs[id]);
    if Fulfilled(world) && Counted(world) {
      var progress := ProgressOf(world.result.processedCount.value, world.result.processedCount, None);
      var t4 := Report(t3, id, lease, progress);
      ReportKeepsLease(t3, id, lease, progress);
      LeaseKept(t4, world.afterReport, id, lease);
      SameAttemptTransitive(t4.jobs[id], t3.jobs[id], t.jobs[id]);
      SameAttemptTransitive(Run(t4, world.afterReport).jobs[id], t4.jobs[id], t.jobs[id]);
    }
  }

  /** What the attempt is closed as: the name of what was thrown, by the handler or for a count that is
      negative or no safe integer. */
  function ErrorOf(world: World): string {
    if world.result.Threw? then world.result.name else "Error"
  }

  /** The handler fulfilled the attempt exactly if it returned no count or a proper one. */
  lemma {:induction false} FulfilledIff(world: World)
    ensures Fulfilled(world) <==>
      match world.result
      case Threw(_) => false
      case Returned(None) => true
      case Returned(Some(count)) => 0 <= count <= 9_007_199_254_740_991
  {
  }

  /** How a turn that still owns its lease leaves the job and its attempt row. */
  predicate ClosedRow(job: Job, attempt: Attempt, world: World, maxAttempts: nat, n: nat, worker: WorkerId,
      retryAt: int) {
    && job.attempts == n
    && job.status == (if Fulfilled(world) then Succeeded else if n >= maxAttempts then Failed else RetryWait)
    && (if Fulfilled(world) then job.completedAt == Some(world.endedAt) else job.availableAt == retryAt)
    && (!Fulfilled(world) ==> IsCode(job.lastErrorCode, ErrorOf(world)) && attempt.errorCode == job.lastErrorCode)
    && attempt.worker == worker && attempt.finishedAt == Some(world.endedAt)
    && attempt.outcome
       == (if Fulfilled(world) then SucceededAttempt else if n >= maxAttempts then FailedAttempt else Retry)
  }

  lemma {:induction false} ClosesOwned(t: Table, id: JobId, lease: Lease, retryAt: int, world: World)
    requires Inv(t) && Owns(t, id, lease)
    ensures var end := Close(t, id, lease, retryAt, world);
            && id in end.jobs && (id, lease.version) in end.ledger
            && ClosedRow(end.jobs[id], end.ledger[(id, lease.version)], world, t.jobs[id].maxAttempts, lease.version,
                lease.worker, retryAt)
            && end.jobs == t.jobs[id := end.jobs[id]]
            && end.ledger == t.ledger[(id, lease.version) := end.ledger[(id, lease.version)]]
  {
    assert RowOf(t.jobs[id]) && LedgerOf(t, id);
    assert (id, t.jobs[id].attempts) in t.ledger;
    hide Inv;
  }

  lemma {:induction false} TakenOwns(t: Table, id: JobId, worker: WorkerId, leaseMs: int, now: int)
    requires Inv(t) && id in t.jobs && Waiting(t.jobs[id].status)
    ensures Owns(Take(t, id, worker, leaseMs, now), id, Lease(worker, t.jobs[id].attempts + 1))
    ensures Take(t, id, worker, leaseMs, now).jobs[id].maxAttempts == t.jobs[id].maxAttempts
    ensures (id, t.jobs[id].attempts + 1) !in t.ledger
  {
    assert RowOf(t.jobs[id]) && LedgerOf(t, id);
    hide Inv;
  }

  /** The turn's outcome: the job and its attempt row are closed, and closing touches no other row. */
  ghost predicate TurnDone(t: Table, id: JobId, worker: WorkerId, leaseMs: int, handlerMs: int,
      now: int, retryAt: int, world: World)
    requires id in t.jobs
  {
    var n, taken := t.jobs[id].attempts + 1, Take(t, id, worker, leaseMs, now);
    var u := AtHandlerEnd(taken, id, Lease(worker, n), handlerMs, now, world);
    var v, end := BeforeClosing(u, id, Lease(worker, n), world), Closed(u, id, Lease(worker, n), retryAt, world);
    && id in end.jobs && (id, n) in end.ledger
    && ClosedRow(end.jobs[id], end.ledger[(id, n)], world, t.jobs[id].maxAttempts, n, worker, retryAt)
    && end.jobs == v.jobs[id := end.jobs[id]]
    && end.ledger == v.ledger[(id, n) := end.ledger[(id, n)]]
  }

  /** What a turn achieves. Whatever possible steps the others make while the worker waits, and
      whatever heartbeats come, as long as none of them ends the lease: the job succeeds exactly when
      its handler returned a proper count or none, is otherwise put back or failed by its attempts,
      the attempt row says so, and closing touches no other row. */
  lemma {:induction false} KeptTurn(t: Table, id: JobId, worker: WorkerId, leaseMs: int, handlerMs: int,
      now: int, retryAt: int, world: World)
    requires Inv(t) && id in t.jobs && Waiting(t.jobs[id].status) && t.jobs[id].attempts < t.jobs[id].maxAttempts
    requires var lease, taken := Lease(worker, t.jobs[id].attempts + 1), Take(t, id, worker, leaseMs, now);
             Possible(taken, id, lease, handlerMs, now, world) && SparesTurn(taken, id, lease, handlerMs, now, world)
    ensures TurnDone(t, id, worker, leaseMs, handlerMs, now, retryAt, world)
  {
    var lease := Lease(worker, t.jobs[id].attempts + 1);
    var taken := Take(t, id, worker, leaseMs, now);
    var u := AtHandlerEnd(taken, id, lease, handlerMs, now, world);
    var v := BeforeClosing(u, id, lease, world);
    hide Inv, Take, AtHandlerEnd, BeforeClosing, Close, Fulfilled, Possible, SparesTurn, Owns, ClosedRow;
    TakeKeeps(t, id, worker, leaseMs, now);
    TakenOwns(t, id, worker, leaseMs, now);
    LedgerBeforeClosing(taken, id, lease, handlerMs, now, world);
    LeaseUntilClosing(taken, id, lease, handlerMs, now, world);
    assert v.jobs[id].maxAttempts == t.jobs[id].maxAttempts;
    ClosesOwned(v, id, lease, retryAt, world);
  }

  /** In time is enough: a recovery that comes no later than the expiry leaves the lease alone. */
  lemma {:induction false} InTimeSpares(t: Table, id: JobId, lease: Lease, leaseMs: int, now: int, world: World)
    requires Owns(t, id, lease) && Possible(t, id, lease, leaseMs, now, world)
    requires InTimeForTurn(t, id, lease, leaseMs, now, world)
    ensures SparesTurn(t, id, lease, leaseMs, now, world)
  {
    hide Run, ValidRun, InTime, Spares, SameAttempt, Beat, Report;
    LeaseExclusive(t, world.afterClaim, id, lease);
    var t1 := Run(t, world.afterClaim);
    BeatKeepsLease(t1, id, lease, leaseMs, now);
    LeaseExclusive(Beat(t1, id, lease, leaseMs, now), world.duringHandler, id, lease);
    if Fulfilled(world) && Counted(world) {
      var u := AtHandlerEnd(t, id, lease, leaseMs, now, world);
      var progress := ProgressOf(world.result.processedCount.value, world.result.processedCount, None);
      ReportKeepsLease(u, id, lease, progress);
      LeaseExclusive(Report(u, id, lease, progress), world.afterReport, id, lease);
    }
  }

  /** So a turn does its work under every interleaving in which claims and recoveries come in time. */
  lemma {:induction false} TimelyTurn(t: Table, id: JobId, worker: WorkerId, leaseMs: int, handlerMs: int,
      now: int, retryAt: int, world: World)
    requires Inv(t) && id in t.jobs && Waiting(t.jobs[id].status) && t.jobs[id].attempts < t.jobs[id].maxAttempts
    requires var lease, taken := Lease(worker, t.jobs[id].attempts + 1), Take(t, id, worker, leaseMs, now);
             Possible(taken, id, lease, handlerMs, now, world) && InTimeForTurn(taken, id, lease, handlerMs, now, world)
    ensures TurnDone(t, id, worker, leaseMs, handlerMs, now, retryAt, world)
  {
    hide Inv, Take, Possible, SparesTurn, InTimeForTurn, TurnDone, Owns;
    TakenOwns(t, id, worker, leaseMs, now);
    InTimeSpares(Take(t, id, worker, leaseMs, now), id, Lease(worker, t.jobs[id].attempts + 1), handlerMs, now, world);
    KeptTurn(t, id, worker, leaseMs, handlerMs, now, retryAt, world);
  }

  predicate Undisturbed(world: World) { world.afterClaim == [] && world.duringHandler == [] && world.afterReport == [] }

  lemma {:induction false} UndisturbedSpares(t: Table, id: JobId, lease: Lease, leaseMs: int, now: int, world: World)
    requires Undisturbed(world)
    ensures Possible(t, id, lease, leaseMs, now, world) && SparesTurn(t, id, lease, leaseMs, now, world)
  {
    hide Beat, Report;
  }

  /** A turn no one disturbs does the same, and nothing else changes in the whole table. */
  lemma {:induction false} UndisturbedTurn(t: Table, id: JobId, worker: WorkerId, leaseMs: int, handlerMs: int,
      now: int, retryAt: int, world: World)
    requires Inv(t) && id in t.jobs && Waiting(t.jobs[id].status) && t.jobs[id].attempts < t.jobs[id].maxAttempts
    requires Undisturbed(world)
    ensures var n, taken := t.jobs[id].attempts + 1, Take(t, id, worker, leaseMs, now);
            var end := Closed(AtHandlerEnd(taken, id, Lease(worker, n), handlerMs, now, world), id, Lease(worker, n),
                retryAt, world);
            && id in end.jobs && (id, n) in end.ledger && (id, n) !in t.ledger
            && ClosedRow(end.jobs[id], end.ledger[(id, n)], world, t.jobs[id].maxAttempts, n, worker, retryAt)
            && end.jobs == t.jobs[id := end.jobs[id]]
            && end.ledger == t.ledger[(id, n) := end.ledger[(id, n)]]
  {
    hide Inv, Take, Closed, AtHandlerEnd, BeforeClosing, Undisturbed, Possible, SparesTurn, ClosedRow, Waiting;
    var n, taken := t.jobs[id].attempts + 1, Take(t, id, worker, leaseMs, now);
    UndisturbedSpares(taken, id, Lease(worker, n), handlerMs, now, world);
    KeptTurn(t, id, worker, leaseMs, handlerMs, now, retryAt, world);
    TakenOwns(t, id, worker, leaseMs, now);
    QuietFrame(t, id, worker, leaseMs, handlerMs, now, world);
    var u := AtHandlerEnd(taken, id, Lease(worker, n), handlerMs, now, world);
    var v, end := BeforeClosing(u, id, Lease(worker, n), world), Closed(u, id, Lease(worker, n), retryAt, world);
    Overwrite(t.jobs, v.jobs, id, end.jobs[id]);
    Overwrite(t.ledger, v.ledger, (id, n), end.ledger[(id, n)]);
  }

  lemma {:induction false} Overwrite<K, V>(m: map<K, V>, n: map<K, V>, k: K, x: V)
    requires k in n && n == m[k := n[k]]
    ensures n[k := x] == m[k := x]
  {
  }

  /** Beats and reports touch the job's row alone. */
  lemma {:induction false} BeatTouchesOne(t: Table, u: Table, id: JobId, n: nat, lease: Lease, ms: int, now: int)
    requires TouchesOne(t, u, id, n)
    ensures TouchesOne(t, Beat(u, id, lease, ms, now), id, n)
  {
  }

  lemma {:induction false} ReportTouchesOne(t: Table, u: Table, id: JobId, n: nat, lease: Lease, progress: Progress)
    requires TouchesOne(t, u, id, n)
    ensures TouchesOne(t, Report(u, id, lease, progress), id, n)
  {
  }

  lemma {:induction false} QuietFrame(t: Table, id: JobId, worker: WorkerId, leaseMs: int, ms: int, now: int,
      world: World)
    requires id in t.jobs && Undisturbed(world)
    ensures var n, taken := t.jobs[id].attempts + 1, Take(t, id, worker, leaseMs, now);
            var u := AtHandlerEnd(taken, id, Lease(worker, n), ms, now, world);
            TouchesOne(t, BeforeClosing(u, id, Lease(worker, n), world), id, n)
  {
    var n, taken := t.jobs[id].attempts + 1, Take(t, id, worker, leaseMs, now);
    var lease := Lease(worker, n);
    assert TouchesOne(t, taken, id, n);
    hide Take, TouchesOne, Beat, Report;
    BeatTouchesOne(t, taken, id, n, lease, ms, now);
    var u := AtHandlerEnd(taken, id, lease, ms, now, world);
    assert u == Beat(taken, id, lease, ms, now);
    if Fulfilled(world) && Counted(world) {
      var progress := ProgressOf(world.result.processedCount.value, world.result.processedCount, None);
      ReportTouchesOne(t, u, id, n, lease, progress);
    }
  }

  // ---------- the handler's settings ----------

  /** A handler's own lease and retry settings are used where it has them; a handler with a policy falls
      back on the defaults, one without on the worker's. */
  lemma {:induction false} HandlerSettings(h: Handler, own: RetryPolicy, ownLeaseMs: int)
    ensures h.policy.None? ==> RetryPolicyOf(h, own) == own && LeaseMsOf(h, ownLeaseMs) == ownLeaseMs
    ensures h.policy.Some? ==>
      (var p, r := h.policy.value, RetryPolicyOf(h, own);
       && LeaseMsOf(h, ownLeaseMs) == (if p.leaseMs.Some? then p.leaseMs.value else ownLeaseMs)
       && r.baseDelayMs == (if p.baseDelayMs.Some? then p.baseDelayMs.value else 1_000.0)
       && r.maxDelayMs == (if p.maxDelayMs.Some? then p.maxDelayMs.value else 900_000.0)
       && r.jitterRatio == (if p.jitterRatio.Some? then p.jitterRatio.value else 0.2))
  {
  }

  /** The retry comes a whole number of milliseconds after the end, at least one: the policy's delay. */
  lemma {:induction false} RetryIsLater(endedAt: int, policy: RetryPolicy, attempts: nat, random: real)
    requires policy.baseDelayMs >= 0.0 && policy.maxDelayMs >= 1.0 && 0.0 <= policy.jitterRatio
    ensures (RetryAt(endedAt, policy, attempts, random) - endedAt) as real == RetryDelayMs(policy, attempts, random)
    ensures RetryAt(endedAt, policy, attempts, random) > endedAt
  {
    RetryDelayBounds(policy, attempts, random);
    DelayIsWhole(policy, attempts, random);
    hide RetryDelayMs;
  }

  lemma {:induction false} DelayIsWhole(policy: RetryPolicy, attempts: nat, random: real)
    ensures RetryDelayMs(policy, attempts, random).Floor as real == RetryDelayMs(policy, attempts, random)
  {
    var x := RealMin(policy.maxDelayMs, Jitter(Bounded(policy, attempts), policy.jitterRatio, random));
    hide Jitter, Bounded;
    var k := (x + 0.5).Floor;
    assert Round(x) == k as real;
    assert (1 as real).Floor == 1 && (k as real).Floor == k;
  }
}
