/** What every interleaving of repository calls keeps: ledger, leases, finality, bounded claims. */
module JobRuns {
  import opened Basics
  import opened Wrappers
  import opened JobTable

  /** One atomic call by some worker. A claim also records what the database happened to answer. */
  datatype Step =
    | EnqueueStep(id: JobId, job: Job)
    | ClaimStep(page: seq<JobId>, choice: Option<JobId>, worker: WorkerId, leaseMs: int, now: int,
                priorities: set<Priority>, kinds: set<JobType>)
    | RecoverStep(page: seq<JobId>, now: int)
    | HeartbeatStep(id: JobId, lease: Lease, leaseMs: int, now: int)
    | ProgressStep(id: JobId, lease: Lease, progress: Progress)
    | RetryOrFailStep(id: JobId, lease: Lease, availableAt: int, error: string, now: int)
    | CompleteStep(id: JobId, lease: Lease, now: int)

  predicate IsNewJob(job: Job) {
    job.maxAttempts > 0 && job == NewJob(job.tenant, job.kind, job.priority, job.activeKey, job.maxAttempts,
        job.availableAt, job.createdAt)
  }

  ghost predicate Enabled(t: Table, s: Step) {
    match s
    case EnqueueStep(id, job) => id !in t.jobs && IsNewJob(job) && KeyFree(t.jobs, job.activeKey)
    case ClaimStep(page, choice, _, _, now, priorities, kinds) =>
      && IsExpiredPage(t.jobs, now, page)
      && MayChoose(RecoverAll(t, page, now).jobs, choice, now, priorities, kinds)
    case RecoverStep(page, now) => IsExpiredPage(t.jobs, now, page)
    case _ => true
  }

  function Apply(t: Table, s: Step): Table {
    match s
    case EnqueueStep(id, job) => Insert(t, id, job)
    case ClaimStep(page, choice, worker, leaseMs, now, _, _) => Claim(t, page, choice, worker, leaseMs, now)
    case RecoverStep(page, now) => RecoverAll(t, page, now)
    case HeartbeatStep(id, lease, leaseMs, now) => Beat(t, id, lease, leaseMs, now)
    case ProgressStep(id, lease, progress) => Report(t, id, lease, progress)
    case RetryOrFailStep(id, lease, availableAt, error, now) => GiveBack(t, id, lease, availableAt, error, now)
    case CompleteStep(id, lease, now) => Succeed(t, id, lease, now)
  }

  function Run(t: Table, steps: seq<Step>): Table {
    if |steps| == 0 then t else Apply(Run(t, steps[..|steps| - 1]), steps[|steps| - 1])
  }

  ghost predicate ValidRun(t: Table, steps: seq<Step>) {
    |steps| > 0 ==> ValidRun(t, steps[..|steps| - 1]) && Enabled(Run(t, steps[..|steps| - 1]), steps[|steps| - 1])
  }

  // ---------- the ledger invariant ----------

  /** How a job that is not running was left by its last attempt. */
  predicate Agrees(status: Status, last: Outcome) {
    match status
    case Running => last == RunningAttempt
    case RetryWait => last == Retry || last == Abandoned
    case Succeeded => last == SucceededAttempt
    case Failed => last == FailedAttempt || last == Abandoned
    case _ => false
  }

  ghost predicate LedgerOf(t: Table, id: JobId)
    requires id in t.jobs
  {
    var job := t.jobs[id];
    && (forall n: nat :: (id, n) in t.ledger <==> 1 <= n <= job.attempts)
    && (forall n: nat :: 1 <= n < job.attempts ==>
           t.ledger[(id, n)].outcome == Retry || t.ledger[(id, n)].outcome == Abandoned)
    && (job.attempts == 0 ==> job.status == Pending)
    && (job.attempts > 0 ==> Agrees(job.status, t.ledger[(id, job.attempts)].outcome))
    && (job.status == Running ==> job.leasedBy == Some(t.ledger[(id, job.attempts)].worker))
  }

  predicate RowOf(job: Job) {
    && job.attempts == job.leaseVersion <= job.maxAttempts
    && (Waiting(job.status) ==> job.attempts < job.maxAttempts)
    && (job.status == Failed ==> job.attempts == job.maxAttempts)
    && (job.status == Running <==> job.leasedBy.Some?)
    && (job.status == Running ==> job.leaseExpiresAt.Some?)
    && (job.status == Succeeded || job.status == Failed <==> job.completedAt.Some?)
  }

  ghost predicate Inv(t: Table) {
    && (forall id :: id in t.jobs ==> RowOf(t.jobs[id]) && LedgerOf(t, id))
    && (forall k :: k in t.ledger ==> k.0 in t.jobs)
  }

  lemma EmptyTable()
    ensures Inv(Table(map[], map[]))
  {
  }

  /** A step that touches one job keeps the invariant if it keeps it for that job. */
  lemma {:induction false} OneJob(t: Table, u: Table, id: JobId)
    requires Inv(t)
    requires id in u.jobs && u.jobs == t.jobs[id := u.jobs[id]]
    requires forall k: (JobId, nat) :: k.0 != id ==>
        (k in u.ledger <==> k in t.ledger) && (k in t.ledger ==> u.ledger[k] == t.ledger[k])
    requires RowOf(u.jobs[id]) && LedgerOf(u, id)
    ensures Inv(u)
  {
    forall o | o in u.jobs ensures RowOf(u.jobs[o]) && LedgerOf(u, o) {
      if o != id {
        assert LedgerOf(t, o);
        forall n: nat ensures (o, n) in u.ledger <==> (o, n) in t.ledger {}
      }
    }
  }

  /** One job row at most has changed, and one attempt row of it. */
  predicate TouchesOne(t: Table, u: Table, id: JobId, n: nat) {
    && id in u.jobs && u.jobs == t.jobs[id := u.jobs[id]]
    && (id, n) in u.ledger && u.ledger == t.ledger[(id, n) := u.ledger[(id, n)]]
  }

  lemma {:induction false} OneRow(t: Table, u: Table, id: JobId, n: nat)
    requires Inv(t) && TouchesOne(t, u, id, n) && RowOf(u.jobs[id]) && LedgerOf(u, id)
    ensures Inv(u)
  {
    hide Inv, RowOf, LedgerOf;
    OneJob(t, u, id);
  }

  lemma {:induction false} AtJob(t: Table, id: JobId)
    requires Inv(t) && id in t.jobs
    ensures RowOf(t.jobs[id]) && LedgerOf(t, id)
  {
  }

  lemma {:induction false} TakenRow(t: Table, id: JobId, worker: WorkerId, leaseMs: int, now: int)
    requires id in t.jobs && Waiting(t.jobs[id].status) && RowOf(t.jobs[id]) && LedgerOf(t, id)
    ensures (id, t.jobs[id].attempts + 1) !in t.ledger
    ensures var u := Take(t, id, worker, leaseMs, now);
            RowOf(u.jobs[id]) && LedgerOf(u, id) && TouchesOne(t, u, id, t.jobs[id].attempts + 1)
  {
    var u := Take(t, id, worker, leaseMs, now);
    var last := t.jobs[id].attempts + 1;
    forall n: nat | n != last ensures (id, n) in u.ledger <==> (id, n) in t.ledger {}
  }

  lemma {:induction false} TakeKeeps(t: Table, id: JobId, worker: WorkerId, leaseMs: int, now: int)
    requires Inv(t) && id in t.jobs && Waiting(t.jobs[id].status) && t.jobs[id].attempts < t.jobs[id].maxAttempts
    ensures Inv(Take(t, id, worker, leaseMs, now))
    ensures (id, t.jobs[id].attempts + 1) !in t.ledger
  {
    hide Inv, RowOf, LedgerOf, Take, TouchesOne;
    AtJob(t, id);
    TakenRow(t, id, worker, leaseMs, now);
    OneRow(t, Take(t, id, worker, leaseMs, now), id, t.jobs[id].attempts + 1);
  }

  /** A running job that stops running, with its last attempt row finished to match. */
  lemma {:induction false} StoppedRow(t: Table, u: Table, id: JobId, row: Attempt)
    requires id in t.jobs && t.jobs[id].status == Running && RowOf(t.jobs[id]) && LedgerOf(t, id)
    requires id in u.jobs && RowOf(u.jobs[id]) && u.jobs[id].attempts == t.jobs[id].attempts
    requires u.jobs[id].status != Running && Agrees(u.jobs[id].status, row.outcome)
    requires u.ledger == t.ledger[(id, t.jobs[id].attempts) := row]
    ensures LedgerOf(u, id)
  {
    hide RowOf;
    assert t.jobs[id].attempts > 0;
    forall n: nat ensures (id, n) in u.ledger <==> (id, n) in t.ledger {}
  }

  /** On a job that keeps the invariant, abandoning every running row touches the last row only. */
  lemma {:induction false} AbandonLast(t: Table, id: JobId, now: int)
    requires Inv(t) && id in t.jobs && t.jobs[id].status == Running
    ensures Abandon(t.ledger, id, now)
         == t.ledger[(id, t.jobs[id].attempts) := t.ledger[(id, t.jobs[id].attempts)].(outcome := Abandoned,
             finishedAt := Some(now))]
  {
    assert LedgerOf(t, id);
    forall k | k in t.ledger && k.0 == id && k.1 != t.jobs[id].attempts ensures t.ledger[k].outcome != RunningAttempt {
      assert (id, k.1) in t.ledger;
    }
  }

  lemma {:induction false} RecoverOneKeeps(t: Table, id: JobId, now: int)
    requires Inv(t)
    ensures Inv(RecoverOne(t, id, now))
  {
    if id in t.jobs && Expired(t.jobs[id], now) {
      AtJob(t, id);
      AbandonLast(t, id, now);
      var last := (id, t.jobs[id].attempts);
      StoppedRow(t, RecoverOne(t, id, now), id, t.ledger[last].(outcome := Abandoned, finishedAt := Some(now)));
      hide Inv, RowOf, LedgerOf;
      OneJob(t, RecoverOne(t, id, now), id);
    }
  }

  lemma {:induction false} RecoverAllKeeps(t: Table, page: seq<JobId>, now: int)
    requires Inv(t)
    ensures Inv(RecoverAll(t, page, now))
  {
    if |page| > 0 {
      RecoverAllKeeps(t, page[..|page| - 1], now);
      RecoverOneKeeps(RecoverAll(t, page[..|page| - 1], now), page[|page| - 1], now);
    }
  }

  lemma {:induction false} GivenBackRow(t: Table, id: JobId, lease: Lease, availableAt: int, error: string, now: int)
    requires Owns(t, id, lease) && RowOf(t.jobs[id]) && LedgerOf(t, id)
    ensures var u := GiveBack(t, id, lease, availableAt, error, now);
            id in u.jobs && RowOf(u.jobs[id]) && LedgerOf(u, id) && TouchesOne(t, u, id, t.jobs[id].attempts)
  {
    var u, last := GiveBack(t, id, lease, availableAt, error, now), (id, t.jobs[id].attempts);
    hide LedgerOf;
    LastRuns(t, id);
    StoppedRow(t, u, id, u.ledger[last]);
  }

  lemma {:induction false} LastRuns(t: Table, id: JobId)
    requires id in t.jobs && t.jobs[id].status == Running && RowOf(t.jobs[id]) && LedgerOf(t, id)
    ensures (id, t.jobs[id].attempts) in t.ledger && t.ledger[(id, t.jobs[id].attempts)].outcome == RunningAttempt
  {
  }

  lemma {:induction false} SucceededRow(t: Table, id: JobId, lease: Lease, now: int)
    requires Owns(t, id, lease) && RowOf(t.jobs[id]) && LedgerOf(t, id)
    ensures var u := Succeed(t, id, lease, now);
            id in u.jobs && RowOf(u.jobs[id]) && LedgerOf(u, id) && TouchesOne(t, u, id, t.jobs[id].attempts)
  {
    var u, last := Succeed(t, id, lease, now), (id, t.jobs[id].attempts);
    hide LedgerOf;
    LastRuns(t, id);
    StoppedRow(t, u, id, u.ledger[last]);
  }

  /** A job whose lease or progress alone changes. */
  lemma {:induction false} SameAttemptKeeps(t: Table, u: Table, id: JobId)
    requires Inv(t) && id in t.jobs && t.jobs[id].status == Running
    requires id in u.jobs && SameAttempt(u.jobs[id], t.jobs[id]) && u.jobs[id].leaseExpiresAt.Some?
    requires u.jobs == t.jobs[id := u.jobs[id]] && u.ledger == t.ledger
    ensures Inv(u)
  {
    AtJob(t, id);
    assert RowOf(u.jobs[id]) && LedgerOf(u, id);
    hide Inv, RowOf, LedgerOf;
    OneJob(t, u, id);
  }

  lemma {:induction false} GiveBackKeeps(t: Table, id: JobId, lease: Lease, availableAt: int, error: string, now: int)
    requires Inv(t)
    ensures Inv(GiveBack(t, id, lease, availableAt, error, now))
  {
    if Owns(t, id, lease) {
      AtJob(t, id);
      GivenBackRow(t, id, lease, availableAt, error, now);
      hide Inv, RowOf, LedgerOf, GiveBack, TouchesOne;
      OneRow(t, GiveBack(t, id, lease, availableAt, error, now), id, t.jobs[id].attempts);
    }
  }

  lemma {:induction false} SucceedKeeps(t: Table, id: JobId, lease: Lease, now: int)
    requires Inv(t)
    ensures Inv(Succeed(t, id, lease, now))
  {
    if Owns(t, id, lease) {
      AtJob(t, id);
      SucceededRow(t, id, lease, now);
      hide Inv, RowOf, LedgerOf, Succeed, TouchesOne;
      OneRow(t, Succeed(t, id, lease, now), id, t.jobs[id].attempts);
    }
  }

  lemma {:induction false} EnqueueKeeps(t: Table, id: JobId, job: Job)
    requires Inv(t) && id !in t.jobs && IsNewJob(job)
    ensures Inv(Insert(t, id, job))
  {
    assert forall n: nat :: (id, n) !in t.ledger;
    assert LedgerOf(Insert(t, id, job), id);
    hide LedgerOf;
    OneJob(t, Insert(t, id, job), id);
  }

  lemma {:induction false} StepKeeps(t: Table, s: Step)
    requires Inv(t) && Enabled(t, s)
    ensures Inv(Apply(t, s))
  {
    match s
    case EnqueueStep(id, job) =>
      EnqueueKeeps(t, id, job);
    case ClaimStep(page, choice, worker, leaseMs, now, _, _) =>
      RecoverAllKeeps(t, page, now);
      if choice.Some? { TakeKeeps(RecoverAll(t, page, now), choice.value, worker, leaseMs, now); }
    case RecoverStep(page, now) => RecoverAllKeeps(t, page, now);
    case HeartbeatStep(id, lease, leaseMs, now) =>
      if Owns(t, id, lease) { SameAttemptKeeps(t, Apply(t, s), id); }
    case ProgressStep(id, lease, progress) =>
      if Owns(t, id, lease) { SameAttemptKeeps(t, Apply(t, s), id); }
    case RetryOrFailStep(id, lease, availableAt, error, now) => GiveBackKeeps(t, id, lease, availableAt, error, now);
    case CompleteStep(id, lease, now) => SucceedKeeps(t, id, lease, now);
  }

  /** Every reachable table keeps the ledger, whatever the workers and their clocks do. */
  lemma {:induction false} RunKeeps(t: Table, steps: seq<Step>)
    requires Inv(t) && ValidRun(t, steps)
    ensures Inv(Run(t, steps))
  {
    if |steps| > 0 {
      RunKeeps(t, steps[..|steps| - 1]);
      StepKeeps(Run(t, steps[..|steps| - 1]), steps[|steps| - 1]);
    }
  }

  /** So it is in every table reached from the empty one, and at most one job a key is active in it. */
  lemma {:induction false} ReachedKeeps(steps: seq<Step>)
    requires ValidRun(Table(map[], map[]), steps)
    ensures Inv(Run(Table(map[], map[]), steps)) && UniqueKeys(Run(Table(map[], map[]), steps))
  {
    EmptyTable();
    RunKeeps(Table(map[], map[]), steps);
    KeysStayUnique(Table(map[], map[]), steps);
  }

  /** A job has a running attempt row exactly when it runs: the row numbered by its lease version. */
  lemma {:induction false} RunningRow(t: Table, id: JobId, n: nat)
    requires Inv(t) && id in t.jobs && (id, n) in t.ledger
    ensures t.ledger[(id, n)].outcome == RunningAttempt
       <==> t.jobs[id].status == Running && n == t.jobs[id].leaseVersion
  {
    assert RowOf(t.jobs[id]) && LedgerOf(t, id);
  }

  // ---------- active keys ----------

  /** At most one active job a key. */
  ghost predicate UniqueKeys(t: Table) {
    forall a, b, key :: a in t.jobs && b in t.jobs && HoldsKey(t.jobs[a], key) && HoldsKey(t.jobs[b], key) ==> a == b
  }

  /** No job becomes active again, and none changes its key. */
  ghost predicate NoneRevived(t: Table, u: Table) {
    forall id, key :: id in u.jobs && HoldsKey(u.jobs[id], key) ==> id in t.jobs && HoldsKey(t.jobs[id], key)
  }

  lemma {:induction false} NoneRevivedTransitive(t: Table, u: Table, v: Table)
    requires NoneRevived(t, u) && NoneRevived(u, v)
    ensures NoneRevived(t, v)
  {
    hide HoldsKey;
  }

  lemma {:induction false} RecoverOneRevivesNone(t: Table, id: JobId, now: int)
    ensures NoneRevived(t, RecoverOne(t, id, now))
  {
  }

  lemma {:induction false} RecoveryRevivesNone(t: Table, page: seq<JobId>, now: int)
    ensures NoneRevived(t, RecoverAll(t, page, now))
  {
    if |page| > 0 {
      RecoveryRevivesNone(t, page[..|page| - 1], now);
      var u := RecoverAll(t, page[..|page| - 1], now);
      RecoverOneRevivesNone(u, page[|page| - 1], now);
      NoneRevivedTransitive(t, u, RecoverAll(t, page, now));
    }
  }

  lemma {:induction false} TakeRevivesNone(t: Table, id: JobId, worker: WorkerId, leaseMs: int, now: int)
    requires id in t.jobs && Waiting(t.jobs[id].status)
    ensures NoneRevived(t, Take(t, id, worker, leaseMs, now))
  {
  }

  lemma {:induction false} StepRevivesNone(t: Table, s: Step)
    requires Enabled(t, s) && !s.EnqueueStep?
    ensures NoneRevived(t, Apply(t, s))
  {
    match s
    case ClaimStep(page, choice, worker, leaseMs, now, _, _) =>
      RecoveryRevivesNone(t, page, now);
      if choice.Some? { TakeRevivesNone(RecoverAll(t, page, now), choice.value, worker, leaseMs, now); }
    case RecoverStep(page, now) => RecoveryRevivesNone(t, page, now);
    case _ =>
  }

  /** The unique index is never violated by a claim, a retry or a recovery, and an enqueue that the
      index lets through keeps it: in every run at most one job with a key is active. */
  lemma {:induction false} KeysStayUnique(t: Table, steps: seq<Step>)
    requires UniqueKeys(t) && ValidRun(t, steps)
    ensures UniqueKeys(Run(t, steps))
  {
    if |steps| > 0 {
      var u, s := Run(t, steps[..|steps| - 1]), steps[|steps| - 1];
      KeysStayUnique(t, steps[..|steps| - 1]);
      if !s.EnqueueStep? { StepRevivesNone(u, s); }
    }
  }

  // ---------- fencing ----------

  /** The lease with this version has been handed out, and is no longer the running one. */
  predicate Dead(t: Table, id: JobId, version: nat) {
    id in t.jobs && version <= t.jobs[id].leaseVersion && !Live(t, id, version)
  }

  predicate Live(t: Table, id: JobId, version: nat) {
    id in t.jobs && t.jobs[id].status == Running && t.jobs[id].leaseVersion == version
  }

  lemma {:induction false} RecoverAllDead(t: Table, page: seq<JobId>, now: int, id: JobId, version: nat)
    requires Dead(t, id, version)
    ensures Dead(RecoverAll(t, page, now), id, version)
  {
    if |page| > 0 { RecoverAllDead(t, page[..|page| - 1], now, id, version); }
  }

  lemma {:induction false} StepDead(t: Table, s: Step, id: JobId, version: nat)
    requires Enabled(t, s) && Dead(t, id, version)
    ensures Dead(Apply(t, s), id, version)
  {
    match s
    case ClaimStep(page, _, _, _, now, _, _) => RecoverAllDead(t, page, now, id, version);
    case RecoverStep(page, now) => RecoverAllDead(t, page, now, id, version);
    case _ =>
  }

  lemma {:induction false} RunDead(t: Table, steps: seq<Step>, id: JobId, version: nat)
    requires ValidRun(t, steps) && Dead(t, id, version)
    ensures Dead(Run(t, steps), id, version)
  {
    if |steps| > 0 {
      RunDead(t, steps[..|steps| - 1], id, version);
      StepDead(Run(t, steps[..|steps| - 1]), steps[|steps| - 1], id, version);
    }
  }

  /** Once a lease is recovered, retried or completed, every later call that presents it, by any
      worker, changes nothing; the repository's methods report failure because nobody owns it. */
  lemma {:induction false} Fenced(t: Table, steps: seq<Step>, id: JobId, lease: Lease, s: Step)
    requires ValidRun(t, steps) && Dead(t, id, lease.version)
    requires s.HeartbeatStep? || s.ProgressStep? || s.RetryOrFailStep? || s.CompleteStep?
    requires s.id == id && s.lease == lease
    ensures !Owns(Run(t, steps), id, lease)
    ensures Apply(Run(t, steps), s) == Run(t, steps)
  {
    RunDead(t, steps, id, lease.version);
  }

  // ---------- how long a lease lasts ----------

  /** The step ends the lease: its owner retries or completes, or a recovery reaches the job after
      the lease's expiry. */
  predicate EndsLease(t: Table, s: Step, id: JobId, lease: Lease) {
    match s
    case RetryOrFailStep(i, l, _, _, _) => i == id && l == lease
    case CompleteStep(i, l, _) => i == id && l == lease
    case ClaimStep(page, _, _, _, now, _, _) => id in page && id in t.jobs && Expired(t.jobs[id], now)
    case RecoverStep(page, now) => id in page && id in t.jobs && Expired(t.jobs[id], now)
    case _ => false
  }

  /** What a lease is held on, but for the time it lasts and the progress reported. */
  predicate SameAttempt(a: Job, b: Job) {
    a == b.(leaseExpiresAt := a.leaseExpiresAt, heartbeatAt := a.heartbeatAt, progress := a.progress)
  }

  lemma {:induction false} RecoverAllElsewhere(t: Table, page: seq<JobId>, now: int, id: JobId)
    requires id in t.jobs && !(id in page && Expired(t.jobs[id], now))
    ensures id in RecoverAll(t, page, now).jobs && RecoverAll(t, page, now).jobs[id] == t.jobs[id]
  {
    if |page| > 0 { RecoverAllElsewhere(t, page[..|page| - 1], now, id); }
  }

  lemma {:induction false} RecoverAllEnds(t: Table, page: seq<JobId>, now: int, id: JobId)
    requires id in t.jobs && id in page && Expired(t.jobs[id], now)
    ensures id in RecoverAll(t, page, now).jobs
    ensures !Owns(RecoverAll(t, page, now), id, Lease(OrNobody(t.jobs[id].leasedBy), t.jobs[id].leaseVersion))
    ensures RecoverAll(t, page, now).jobs[id].status != Running
    ensures RecoverAll(t, page, now).jobs[id].leaseVersion == t.jobs[id].leaseVersion
  {
    RecoverAllReaches(t, page, now, id);
    RecoverAllStay(t, page, now, id);
  }

  function OrNobody(worker: Option<WorkerId>): WorkerId { if worker.Some? then worker.value else "" }

  /** A lease ends by its owner's own call or by a recovery after its expiry, and by nothing else. */
  lemma {:induction false} LeaseEndsIff(t: Table, s: Step, id: JobId, lease: Lease)
    requires Enabled(t, s) && Owns(t, id, lease)
    ensures !Owns(Apply(t, s), id, lease) <==> EndsLease(t, s, id, lease)
    ensures !EndsLease(t, s, id, lease) ==> id in Apply(t, s).jobs && SameAttempt(Apply(t, s).jobs[id], t.jobs[id])
  {
    match s
    case ClaimStep(page, choice, worker, leaseMs, now, _, _) =>
      if EndsLease(t, s, id, lease) {
        RecoverAllEnds(t, page, now, id);
      } else {
        RecoverAllElsewhere(t, page, now, id);
      }
    case RecoverStep(page, now) =>
      if EndsLease(t, s, id, lease) {
        RecoverAllEnds(t, page, now, id);
      } else {
        RecoverAllElsewhere(t, page, now, id);
      }
    case _ =>
  }

  /** No step of the run ends the lease. A claim or a recovery spares it when it comes no later than
      the expiry the row has at that moment, heartbeats included. */
  predicate Spares(t: Table, steps: seq<Step>, id: JobId, lease: Lease) {
    |steps| > 0 ==>
      && Spares(t, steps[..|steps| - 1], id, lease)
      && !EndsLease(Run(t, steps[..|steps| - 1]), steps[|steps| - 1], id, lease)
  }

  /** A lease that nobody presents to end it, and that no recovery finds expired, is kept: the job
      stays with its owner, and the attempt is the same. */
  lemma {:induction false} LeaseKept(t: Table, steps: seq<Step>, id: JobId, lease: Lease)
    requires ValidRun(t, steps) && Owns(t, id, lease) && Spares(t, steps, id, lease)
    ensures Owns(Run(t, steps), id, lease) && SameAttempt(Run(t, steps).jobs[id], t.jobs[id])
  {
    if |steps| > 0 {
      LeaseKept(t, steps[..|steps| - 1], id, lease);
      LeaseEndsIff(Run(t, steps[..|steps| - 1]), steps[|steps| - 1], id, lease);
    }
  }

  /** Nobody presents the lease to end it, and every claim and recovery comes in time. */
  predicate InTime(t: Table, steps: seq<Step>, id: JobId, lease: Lease) {
    |steps| > 0 ==>
      && InTime(t, steps[..|steps| - 1], id, lease)
      && ComesInTime(Run(t, steps[..|steps| - 1]), steps[|steps| - 1], id, lease)
  }

  predicate ComesInTime(t: Table, s: Step, id: JobId, lease: Lease) {
    match s
    case RetryOrFailStep(i, l, _, _, _) => i != id || l != lease
    case CompleteStep(i, l, _) => i != id || l != lease
    case ClaimStep(_, _, _, _, now, _, _) =>
      id in t.jobs && t.jobs[id].leaseExpiresAt.Some? && now <= t.jobs[id].leaseExpiresAt.value
    case RecoverStep(_, now) =>
      id in t.jobs && t.jobs[id].leaseExpiresAt.Some? && now <= t.jobs[id].leaseExpiresAt.value
    case _ => true
  }

  /** Exclusivity: as long as recoveries come no later than its expiry, a lease is its owner's alone. */
  lemma {:induction false} LeaseExclusive(t: Table, steps: seq<Step>, id: JobId, lease: Lease)
    requires ValidRun(t, steps) && Owns(t, id, lease) && InTime(t, steps, id, lease)
    ensures Spares(t, steps, id, lease)
    ensures Owns(Run(t, steps), id, lease) && SameAttempt(Run(t, steps).jobs[id], t.jobs[id])
  {
    if |steps| > 0 {
      LeaseExclusive(t, steps[..|steps| - 1], id, lease);
      LeaseEndsIff(Run(t, steps[..|steps| - 1]), steps[|steps| - 1], id, lease);
    }
  }

  /** How many steps of a run end the lease with this version. */
  function Endings(t: Table, steps: seq<Step>, id: JobId, version: nat): nat {
    if |steps| == 0 then 0
    else
      var before := steps[..|steps| - 1];
      Endings(t, before, id, version)
      + if Live(Run(t, before), id, version) && !Live(Run(t, steps), id, version) then 1 else 0
  }

  lemma {:induction false} JobsStay(t: Table, steps: seq<Step>, id: JobId)
    requires ValidRun(t, steps) && id in t.jobs
    ensures id in Run(t, steps).jobs && t.jobs[id].leaseVersion <= Run(t, steps).jobs[id].leaseVersion
  {
    if |steps| > 0 {
      var u := Run(t, steps[..|steps| - 1]);
      JobsStay(t, steps[..|steps| - 1], id);
      StepJobsStay(u, steps[|steps| - 1], id);
    }
  }

  lemma {:induction false} StepJobsStay(t: Table, s: Step, id: JobId)
    requires Enabled(t, s) && id in t.jobs
    ensures id in Apply(t, s).jobs && t.jobs[id].leaseVersion <= Apply(t, s).jobs[id].leaseVersion
  {
    match s
    case ClaimStep(page, _, _, _, now, _, _) => RecoverAllStay(t, page, now, id);
    case RecoverStep(page, now) => RecoverAllStay(t, page, now, id);
    case _ =>
  }

  lemma {:induction false} RecoverAllStay(t: Table, page: seq<JobId>, now: int, id: JobId)
    requires id in t.jobs
    ensures id in RecoverAll(t, page, now).jobs
    ensures RecoverAll(t, page, now).jobs[id].leaseVersion == t.jobs[id].leaseVersion
  {
    if |page| > 0 { RecoverAllStay(t, page[..|page| - 1], now, id); }
  }

  /** Each lease version is ended at most once, and after that it stays dead. */
  lemma {:induction false} EndedOnce(t: Table, steps: seq<Step>, id: JobId, version: nat)
    requires ValidRun(t, steps)
    ensures Endings(t, steps, id, version) <= 1
    ensures Endings(t, steps, id, version) == 1 ==> Dead(Run(t, steps), id, version)
  {
    if |steps| > 0 {
      var before := steps[..|steps| - 1];
      EndedOnce(t, before, id, version);
      if Endings(t, before, id, version) == 1 {
        StepDead(Run(t, before), steps[|steps| - 1], id, version);
      } else if Live(Run(t, before), id, version) {
        StepJobsStay(Run(t, before), steps[|steps| - 1], id);
      }
    }
  }

  // ---------- finality ----------

  predicate Final(s: Status) { s.Succeeded? || s.Failed? }

  lemma {:induction false} RecoverAllFinal(t: Table, page: seq<JobId>, now: int, id: JobId)
    requires id in t.jobs && Final(t.jobs[id].status)
    ensures id in RecoverAll(t, page, now).jobs && RecoverAll(t, page, now).jobs[id] == t.jobs[id]
    ensures forall n: nat :: (id, n) in t.ledger ==>
              && (id, n) in RecoverAll(t, page, now).ledger
              && RecoverAll(t, page, now).ledger[(id, n)] == t.ledger[(id, n)]
  {
    if |page| > 0 { RecoverAllFinal(t, page[..|page| - 1], now, id); }
  }

  lemma {:induction false} TakeFinal(t: Table, chosen: JobId, worker: WorkerId, leaseMs: int, now: int, id: JobId)
    requires chosen in t.jobs && Waiting(t.jobs[chosen].status) && id in t.jobs && Final(t.jobs[id].status)
    ensures var u := Take(t, chosen, worker, leaseMs, now);
            && u.jobs[id] == t.jobs[id]
            && forall n: nat :: (id, n) in t.ledger ==> (id, n) in u.ledger && u.ledger[(id, n)] == t.ledger[(id, n)]
  {
  }

  lemma {:induction false} StepFinal(t: Table, s: Step, id: JobId)
    requires Enabled(t, s) && id in t.jobs && Final(t.jobs[id].status)
    ensures id in Apply(t, s).jobs && Apply(t, s).jobs[id] == t.jobs[id]
    ensures forall n: nat :: (id, n) in t.ledger ==>
              (id, n) in Apply(t, s).ledger && Apply(t, s).ledger[(id, n)] == t.ledger[(id, n)]
  {
    match s
    case ClaimStep(page, choice, worker, leaseMs, now, _, _) =>
      RecoverAllFinal(t, page, now, id);
      if choice.Some? { TakeFinal(RecoverAll(t, page, now), choice.value, worker, leaseMs, now, id); }
      hide RecoverAll, Take;
    case RecoverStep(page, now) => RecoverAllFinal(t, page, now, id);
    case _ =>
  }

  /** A succeeded or failed job is never touched again: neither its row nor its attempt rows. */
  lemma {:induction false} FinalForever(t: Table, steps: seq<Step>, id: JobId)
    requires ValidRun(t, steps) && id in t.jobs && Final(t.jobs[id].status)
    ensures id in Run(t, steps).jobs && Run(t, steps).jobs[id] == t.jobs[id]
    ensures forall n: nat :: (id, n) in t.ledger ==>
              (id, n) in Run(t, steps).ledger && Run(t, steps).ledger[(id, n)] == t.ledger[(id, n)]
  {
    if |steps| > 0 {
      FinalForever(t, steps[..|steps| - 1], id);
      StepFinal(Run(t, steps[..|steps| - 1]), steps[|steps| - 1], id);
    }
  }

  // ---------- bounded work ----------

  function Left(job: Job): int { job.maxAttempts - job.attempts }

  /** How many claims the rows still allow, all together. */
  ghost function Budget(jobs: map<JobId, Job>): int {
    if jobs == map[] then 0
    else
      var id :| id in jobs;
      Left(jobs[id]) + Budget(jobs - {id})
  }

  lemma {:induction false} BudgetWithout(jobs: map<JobId, Job>, id: JobId)
    requires id in jobs
    ensures Budget(jobs) == Left(jobs[id]) + Budget(jobs - {id})
    decreases jobs
  {
    var first :| first in jobs && Budget(jobs) == Left(jobs[first]) + Budget(jobs - {first});
    if first != id {
      BudgetWithout(jobs - {first}, id);
      BudgetWithout(jobs - {id}, first);
      assert jobs - {first} - {id} == jobs - {id} - {first};
    }
  }

  lemma {:induction false} BudgetUpdate(jobs: map<JobId, Job>, id: JobId, job: Job)
    ensures Budget(jobs[id := job]) == Budget(jobs) + Left(job) - if id in jobs then Left(jobs[id]) else 0
  {
    BudgetWithout(jobs[id := job], id);
    if id in jobs {
      BudgetWithout(jobs, id);
      assert jobs[id := job] - {id} == jobs - {id};
    } else {
      assert jobs[id := job] - {id} == jobs;
    }
  }

  lemma {:induction false} BudgetNonNegative(jobs: map<JobId, Job>)
    requires forall id :: id in jobs ==> RowOf(jobs[id])
    ensures Budget(jobs) >= 0
    decreases jobs
  {
    if jobs != map[] {
      var id :| id in jobs;
      BudgetWithout(jobs, id);
      assert RowOf(jobs[id]);
      forall o | o in jobs - {id} ensures RowOf((jobs - {id})[o]) { assert RowOf(jobs[o]); }
      BudgetNonNegative(jobs - {id});
    }
  }

  predicate IsClaim(s: Step) { s.ClaimStep? && s.choice.Some? }

  function Claims(steps: seq<Step>): nat {
    if |steps| == 0 then 0 else Claims(steps[..|steps| - 1]) + if IsClaim(steps[|steps| - 1]) then 1 else 0
  }

  /** The attempts that the jobs enqueued during a run may use. */
  function Enqueued(steps: seq<Step>): nat {
    if |steps| == 0 then 0
    else
      Enqueued(steps[..|steps| - 1])
      + if steps[|steps| - 1].EnqueueStep? then steps[|steps| - 1].job.maxAttempts else 0
  }

  lemma {:induction false} RecoverAllBudget(t: Table, page: seq<JobId>, now: int)
    ensures Budget(RecoverAll(t, page, now).jobs) == Budget(t.jobs)
  {
    if |page| > 0 {
      RecoverAllBudget(t, page[..|page| - 1], now);
      var u := RecoverAll(t, page[..|page| - 1], now);
      var id := page[|page| - 1];
      if id in u.jobs { BudgetUpdate(u.jobs, id, RecoverAll(t, page, now).jobs[id]); }
    }
  }

  lemma {:induction false} StepBudget(t: Table, s: Step)
    requires Enabled(t, s)
    ensures Budget(Apply(t, s).jobs)
         == Budget(t.jobs) - (if IsClaim(s) then 1 else 0) + (if s.EnqueueStep? then s.job.maxAttempts else 0)
  {
    match s
    case EnqueueStep(id, job) => BudgetUpdate(t.jobs, id, job);
    case ClaimStep(page, choice, _, _, now, _, _) =>
      RecoverAllBudget(t, page, now);
      if choice.Some? { BudgetUpdate(RecoverAll(t, page, now).jobs, choice.value, Apply(t, s).jobs[choice.value]); }
    case RecoverStep(page, now) => RecoverAllBudget(t, page, now);
    case _ =>
      if Owns(t, s.id, s.lease) { BudgetUpdate(t.jobs, s.id, Apply(t, s).jobs[s.id]); }
  }

  /** Claims are paid for from a fixed budget, one unit each, so a finite set of jobs is claimed
      finitely often: no retry, recovery or race ever refunds an attempt. */
  lemma {:induction false} ClaimsArePaid(t: Table, steps: seq<Step>)
    requires Inv(t) && ValidRun(t, steps)
    ensures Claims(steps) + Budget(Run(t, steps).jobs) == Budget(t.jobs) + Enqueued(steps)
    ensures Claims(steps) <= Budget(t.jobs) + Enqueued(steps)
  {
    if |steps| > 0 {
      ClaimsArePaid(t, steps[..|steps| - 1]);
      StepBudget(Run(t, steps[..|steps| - 1]), steps[|steps| - 1]);
    }
    RunKeeps(t, steps);
    BudgetNonNegative(Run(t, steps).jobs);
  }

  /** No job is stuck: one that waits can still be claimed once it is available, and a claim that
      admits it does not come back empty-handed. */
  lemma {:induction false} NeverStuck(t: Table, id: JobId, s: Step)
    requires Inv(t) && id in t.jobs && s.ClaimStep? && Enabled(t, s)
    requires Waiting(t.jobs[id].status) && t.jobs[id].availableAt <= s.now
    requires t.jobs[id].priority in s.priorities && t.jobs[id].kind in s.kinds
    ensures Claimable(t.jobs[id], s.now, s.priorities, s.kinds)
    ensures IsClaim(s)
  {
    assert RowOf(t.jobs[id]);
    RecoverAllWaiting(t, s.page, s.now, id);
  }

  lemma {:induction false} RecoverAllWaiting(t: Table, page: seq<JobId>, now: int, id: JobId)
    requires id in t.jobs && Waiting(t.jobs[id].status)
    ensures id in RecoverAll(t, page, now).jobs && RecoverAll(t, page, now).jobs[id] == t.jobs[id]
  {
    if |page| > 0 { RecoverAllWaiting(t, page[..|page| - 1], now, id); }
  }

  lemma {:induction false} RecoverAllReaches(t: Table, page: seq<JobId>, now: int, id: JobId)
    requires id in t.jobs && Expired(t.jobs[id], now)
    ensures id in RecoverAll(t, page, now).jobs
    ensures id in page ==> RecoverAll(t, page, now).jobs[id].status == StatusAfterFailure(t.jobs[id])
    ensures id !in page ==> RecoverAll(t, page, now).jobs[id] == t.jobs[id]
  {
    if |page| > 0 {
      RecoverAllReaches(t, page[..|page| - 1], now, id);
      assert page == page[..|page| - 1] + [page[|page| - 1]];
    }
  }

  lemma {:induction false} RecoverOneExpired(t: Table, id: JobId, now: int)
    requires id in ExpiredIds(t.jobs, now)
    ensures ExpiredIds(RecoverOne(t, id, now).jobs, now) == ExpiredIds(t.jobs, now) - {id}
  {
  }

  lemma {:induction false} RecoverAllExpired(t: Table, page: seq<JobId>, now: int)
    requires Distinct(page) && forall id :: id in page ==> id in ExpiredIds(t.jobs, now)
    ensures var left := ExpiredIds(RecoverAll(t, page, now).jobs, now);
            && |left| == |ExpiredIds(t.jobs, now)| - |page|
            && forall id :: id in left <==> id in ExpiredIds(t.jobs, now) && id !in page
  {
    hide ExpiredIds, RecoverOne;
    if |page| > 0 {
      var rest, last := page[..|page| - 1], page[|page| - 1];
      RecoverAllExpired(t, rest, now);
      assert page == rest + [last];
      RecoverOneExpired(RecoverAll(t, rest, now), last, now);
    }
  }

  /** However many leases have expired, recoveries work them off by full pages: after k of them at
      the same time all are recovered but those that 25 k are too few for. */
  lemma {:induction false} RecoveriesLeave(t: Table, steps: seq<Step>, now: int)
    requires ValidRun(t, steps) && forall i :: 0 <= i < |steps| ==> steps[i].RecoverStep? && steps[i].now == now
    ensures |ExpiredIds(Run(t, steps).jobs, now)| == Max(0, |ExpiredIds(t.jobs, now)| - RECOVERY_PAGE * |steps|)
  {
    hide ExpiredIds, RecoverAll;
    if |steps| > 0 {
      RecoveriesLeave(t, steps[..|steps| - 1], now);
      assert steps[|steps| - 1].RecoverStep? && steps[|steps| - 1].now == now;
      RecoverAllExpired(Run(t, steps[..|steps| - 1]), steps[|steps| - 1].page, now);
    }
  }

  // ---------- a recovery that other calls come into ----------

  /** The guarded update of a recovery that read the row earlier, as `seen`: it looks at the lease
      afresh, but the status it writes goes by the attempts that were read. */
  function RecoverSeen(t: Table, id: JobId, seen: Job, now: int): Table {
    if id !in t.jobs || !Expired(t.jobs[id], now) then t
    else
      var status := StatusAfterFailure(seen);
      Table(
        t.jobs[id := t.jobs[id].(status := status, availableAt := now, leasedBy := None, leaseExpiresAt := None,
                                 completedAt := if status == Failed then Some(now) else None)],
        Abandon(t.ledger, id, now))
  }

  /** Such an update keeps the ledger exactly when the row as it was read calls for the same status;
      otherwise it leaves a job waiting that has no attempt left, or failed with some left. */
  lemma {:induction false} SeenKeepsIff(t: Table, id: JobId, seen: Job, now: int)
    requires Inv(t) && id in t.jobs && Expired(t.jobs[id], now)
    ensures Inv(RecoverSeen(t, id, seen, now)) <==> StatusAfterFailure(seen) == StatusAfterFailure(t.jobs[id])
  {
    AtJob(t, id);
    var u := RecoverSeen(t, id, seen, now);
    if StatusAfterFailure(seen) == StatusAfterFailure(t.jobs[id]) {
      RecoverOneKeeps(t, id, now);
      assert u == RecoverOne(t, id, now);
    } else {
      assert !RowOf(u.jobs[id]);
    }
  }

  /** A claim or heartbeat of the job grants a lease until `until` at least. */
  predicate Grants(s: Step, id: JobId, until: int) {
    match s
    case ClaimStep(_, choice, _, leaseMs, now, _, _) => choice == Some(id) ==> now + leaseMs >= until
    case HeartbeatStep(i, _, leaseMs, now) => i == id ==> now + leaseMs >= until
    case _ => true
  }

  /** The row is on the attempt that was read, or its lease has not expired. */
  predicate SeenStands(t: Table, id: JobId, seen: Job, now: int) {
    id in t.jobs && (Expired(t.jobs[id], now) ==>
      t.jobs[id].attempts == seen.attempts && t.jobs[id].maxAttempts == seen.maxAttempts)
  }

  lemma {:induction false} RecoveryLeavesSeen(t: Table, page: seq<JobId>, at: int, id: JobId, seen: Job, now: int)
    requires SeenStands(t, id, seen, now)
    ensures SeenStands(RecoverAll(t, page, at), id, seen, now)
  {
    if Expired(t.jobs[id], at) {
      RecoverAllReaches(t, page, at, id);
    } else {
      RecoverAllElsewhere(t, page, at, id);
    }
  }

  lemma {:induction false} StepLeavesSeen(t: Table, s: Step, id: JobId, seen: Job, now: int)
    requires Enabled(t, s) && Grants(s, id, now) && SeenStands(t, id, seen, now)
    ensures SeenStands(Apply(t, s), id, seen, now)
  {
    match s
    case ClaimStep(page, _, _, _, at, _, _) => RecoveryLeavesSeen(t, page, at, id, seen, now);
    case RecoverStep(page, at) => RecoveryLeavesSeen(t, page, at, id, seen, now);
    case _ =>
  }

  /** Whatever calls come between the reading of the page and the update of a row, the update is the
      one of an undivided recovery, as long as no lease granted in between ends before the time that
      the recovery goes by: only a clock that lags by a whole lease could tell the two apart. */
  lemma {:induction false} SeenIsCurrent(t: Table, steps: seq<Step>, id: JobId, now: int)
    requires ValidRun(t, steps) && id in t.jobs && forall i :: 0 <= i < |steps| ==> Grants(steps[i], id, now)
    ensures SeenStands(Run(t, steps), id, t.jobs[id], now)
    ensures RecoverSeen(Run(t, steps), id, t.jobs[id], now) == RecoverOne(Run(t, steps), id, now)
  {
    if |steps| > 0 {
      SeenIsCurrent(t, steps[..|steps| - 1], id, now);
      assert Grants(steps[|steps| - 1], id, now);
      StepLeavesSeen(Run(t, steps[..|steps| - 1]), steps[|steps| - 1], id, t.jobs[id], now);
    }
  }
}
