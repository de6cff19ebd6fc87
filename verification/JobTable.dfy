/**
 The durable job queue: the rows of the job table, the ledger of attempts, and the repository calls
 that workers make on them.
 */
module JobTable {
  import opened Basics
  import opened Wrappers

  type JobId = string
  type WorkerId = string
  type TenantId = string
  type JobType = string

  datatype Priority = Critical | High | Normal | Low
  datatype Status = Pending | Running | RetryWait | Succeeded | Failed | Cancelled
  datatype Outcome = RunningAttempt | SucceededAttempt | Retry | FailedAttempt | Abandoned

  datatype Progress = Progress(current: nat, total: Option<nat>, message: Option<string>)

  datatype Job = Job(
    tenant: Option<TenantId>, kind: JobType, priority: Priority, activeKey: Option<string>, status: Status,
    attempts: nat, maxAttempts: nat, availableAt: int, createdAt: int,
    leasedBy: Option<WorkerId>, leaseExpiresAt: Option<int>, leaseVersion: nat,
    heartbeatAt: Option<int>, startedAt: Option<int>, completedAt: Option<int>,
    progress: Option<Progress>, lastErrorCode: Option<string>)

  datatype Attempt = Attempt(worker: WorkerId, outcome: Outcome, finishedAt: Option<int>, errorCode: Option<string>)

  /** The job rows, and the attempt rows under their unique key (job, attempt number). */
  datatype Table = Table(jobs: map<JobId, Job>, ledger: map<(JobId, nat), Attempt>)

  datatype Enqueued = Created(id: JobId) | Existing(id: JobId) | Rejected

  /** What a worker presents to act on a job it has claimed. */
  datatype Lease = Lease(worker: WorkerId, version: nat)

  const RECOVERY_PAGE: nat := 25
  /** Clocks are integers in milliseconds and are handed in by the caller. */
  const EPOCH: int := 0
  const MAX_SAFE_INTEGER: int := 9_007_199_254_740_991

  // ---------- guards ----------

  predicate Waiting(s: Status) { s.Pending? || s.RetryWait? }

  predicate HoldsKey(job: Job, key: string) {
    job.activeKey == Some(key) && (Waiting(job.status) || job.status == Running)
  }

  predicate KeyFree(jobs: map<JobId, Job>, key: Option<string>) {
    key.Some? ==> forall id :: id in jobs ==> !HoldsKey(jobs[id], key.value)
  }

  predicate Owns(t: Table, id: JobId, lease: Lease) {
    && id in t.jobs
    && t.jobs[id].status == Running
    && t.jobs[id].leasedBy == Some(lease.worker)
    && t.jobs[id].leaseVersion == lease.version
  }

  predicate Expired(job: Job, now: int) {
    job.status == Running && job.leaseExpiresAt.Some? && job.leaseExpiresAt.value < now
  }

  predicate Claimable(job: Job, now: int, priorities: set<Priority>, kinds: set<JobType>) {
    && Waiting(job.status)
    && job.availableAt <= now
    && job.attempts < job.maxAttempts
    && job.priority in priorities
    && job.kind in kinds
  }

  // ---------- claim order ----------

  function Rank(p: Priority): nat {
    match p case Critical => 0 case High => 1 case Normal => 2 case Low => 3
  }

  /** Critical before high before normal before low. */
  predicate NoWorse(p: Priority, q: Priority) {
    match q
    case Critical => p == Critical
    case High => p == Critical || p == High
    case Normal => p != Low
    case Low => true
  }

  /** The tenant's succeeded jobs; jobs without a tenant count as one tenant's. */
  function ServedJobs(jobs: map<JobId, Job>, tenant: Option<TenantId>): set<JobId> {
    set id | id in jobs && jobs[id].tenant == tenant && jobs[id].status == Succeeded && jobs[id].completedAt.Some?
  }

  ghost predicate IsLatest(jobs: map<JobId, Job>, ids: set<JobId>, id: JobId) {
    && id in ids && id in jobs && jobs[id].completedAt.Some?
    && forall o :: o in ids && o in jobs && jobs[o].completedAt.Some? ==>
           jobs[o].completedAt.value <= jobs[id].completedAt.value
  }

  lemma {:induction false} LatestExists(jobs: map<JobId, Job>, ids: set<JobId>)
    requires ids != {} && forall o :: o in ids ==> o in jobs && jobs[o].completedAt.Some?
    ensures exists id :: IsLatest(jobs, ids, id)
    decreases ids
  {
    var x :| x in ids;
    if ids == {x} {
      assert IsLatest(jobs, ids, x);
    } else {
      LatestExists(jobs, ids - {x});
      var m :| IsLatest(jobs, ids - {x}, m);
      assert IsLatest(jobs, ids, if jobs[x].completedAt.value > jobs[m].completedAt.value then x else m);
    }
  }

  /** When the tenant was last served: its latest completion, or the epoch. */
  ghost function LastServed(jobs: map<JobId, Job>, tenant: Option<TenantId>): (at: int)
    ensures ServedJobs(jobs, tenant) == {} ==> at == EPOCH
    ensures forall id :: id in ServedJobs(jobs, tenant) ==> jobs[id].completedAt.value <= at
    ensures ServedJobs(jobs, tenant) != {} ==>
        exists id :: id in ServedJobs(jobs, tenant) && jobs[id].completedAt.value == at
  {
    var ids := ServedJobs(jobs, tenant);
    if ids == {} then EPOCH
    else
      LatestExists(jobs, ids);
      var m :| IsLatest(jobs, ids, m);
      jobs[m].completedAt.value
  }

  datatype ClaimKey = ClaimKey(rank: nat, lastServed: int, availableAt: int, createdAt: int)

  ghost function KeyOf(jobs: map<JobId, Job>, job: Job): ClaimKey {
    ClaimKey(Rank(job.priority), LastServed(jobs, job.tenant), job.availableAt, job.createdAt)
  }

  /** The ORDER BY of the claim, read from the first column to the last. */
  predicate NotAfter(a: ClaimKey, b: ClaimKey) {
    a.rank < b.rank || (a.rank == b.rank &&
      (a.lastServed < b.lastServed || (a.lastServed == b.lastServed &&
        (a.availableAt < b.availableAt || (a.availableAt == b.availableAt && a.createdAt <= b.createdAt)))))
  }

  /** A row that may be the first in claim order; rows that tie may come in any order. */
  ghost predicate IsNext(jobs: map<JobId, Job>, id: JobId, now: int, priorities: set<Priority>, kinds: set<JobType>) {
    && id in jobs
    && Claimable(jobs[id], now, priorities, kinds)
    && forall o :: o in jobs && Claimable(jobs[o], now, priorities, kinds) ==>
         NotAfter(KeyOf(jobs, jobs[id]), KeyOf(jobs, jobs[o]))
  }

  // ---------- what each call does to the table ----------

  // Each call runs in one database transaction or one guarded update, so it is one atomic step; any
  // number of workers interleave such steps.

  function NewJob(tenant: Option<TenantId>, kind: JobType, priority: Priority, activeKey: Option<string>,
      maxAttempts: nat, availableAt: int, createdAt: int): Job
  {
    Job(tenant, kind, priority, activeKey, Pending, 0, maxAttempts, availableAt, createdAt,
        None, None, 0, None, None, None, None, None)
  }

  function Insert(t: Table, id: JobId, job: Job): Table {
    t.(jobs := t.jobs[id := job])
  }

  function Take(t: Table, id: JobId, worker: WorkerId, leaseMs: int, now: int): Table
    requires id in t.jobs
  {
    var job := t.jobs[id];
    Table(
      t.jobs[id := job.(status := Running, leasedBy := Some(worker), leaseExpiresAt := Some(now + leaseMs),
                        heartbeatAt := Some(now), leaseVersion := job.leaseVersion + 1, attempts := job.attempts + 1,
                        startedAt := if job.startedAt.Some? then job.startedAt else Some(now))],
      t.ledger[(id, job.attempts + 1) := Attempt(worker, RunningAttempt, None, None)])
  }

  function Beat(t: Table, id: JobId, lease: Lease, leaseMs: int, now: int): Table {
    if !Owns(t, id, lease) then t
    else t.(jobs := t.jobs[id := t.jobs[id].(heartbeatAt := Some(now), leaseExpiresAt := Some(now + leaseMs))])
  }

  function Report(t: Table, id: JobId, lease: Lease, progress: Progress): Table {
    if !Owns(t, id, lease) then t
    else t.(jobs := t.jobs[id := t.jobs[id].(progress := Some(progress))])
  }

  function StatusAfterFailure(job: Job): Status {
    if job.attempts >= job.maxAttempts then Failed else RetryWait
  }

  function Prefix(s: string, n: nat): (p: string)
    ensures p <= s && |p| == Min(|s|, n)
  {
    if |s| <= n then s else s[..n]
  }

  predicate IsProgress(current: int, total: Option<int>) {
    0 <= current <= MAX_SAFE_INTEGER && (total.Some? ==> current <= total.value <= MAX_SAFE_INTEGER)
  }

  function ProgressOf(current: int, total: Option<int>, message: Option<string>): Progress
    requires IsProgress(current, total)
  {
    Progress(current, if total.Some? then Some(total.value) else None,
        if message.Some? then Some(Prefix(message.value, 200)) else None)
  }

  /** Finishes one attempt row, provided it is still running. */
  function Finish(ledger: map<(JobId, nat), Attempt>, key: (JobId, nat), outcome: Outcome, now: int,
      error: Option<string>)
    : map<(JobId, nat), Attempt>
  {
    if key in ledger && ledger[key].outcome == RunningAttempt
    then ledger[key := ledger[key].(outcome := outcome, finishedAt := Some(now), errorCode := error)]
    else ledger
  }

  function GiveBack(t: Table, id: JobId, lease: Lease, availableAt: int, error: string, now: int): Table {
    if !Owns(t, id, lease) then t
    else
      var job := t.jobs[id];
      var status := StatusAfterFailure(job);
      Table(
        t.jobs[id := job.(status := status, availableAt := availableAt,
                          completedAt := if status == Failed then Some(now) else None,
                          leasedBy := None, leaseExpiresAt := None, lastErrorCode := Some(Prefix(error, 80)))],
        Finish(t.ledger, (id, job.attempts), if status == Failed then FailedAttempt else Retry, now,
            Some(Prefix(error, 80))))
  }

  function Succeed(t: Table, id: JobId, lease: Lease, now: int): Table {
    if !Owns(t, id, lease) then t
    else
      Table(
        t.jobs[id := t.jobs[id].(status := Succeeded, completedAt := Some(now), leasedBy := None,
            leaseExpiresAt := None)],
        Finish(t.ledger, (id, lease.version), SucceededAttempt, now, None))
  }

  /** Every attempt row of the job that is still running is abandoned. */
  function Abandon(ledger: map<(JobId, nat), Attempt>, id: JobId, now: int): map<(JobId, nat), Attempt> {
    map k | k in ledger ::
      if k.0 == id && ledger[k].outcome == RunningAttempt
      then ledger[k].(outcome := Abandoned, finishedAt := Some(now))
      else ledger[k]
  }

  function RecoverOne(t: Table, id: JobId, now: int): Table {
    if id !in t.jobs || !Expired(t.jobs[id], now) then t
    else
      var job := t.jobs[id];
      var status := StatusAfterFailure(job);
      Table(
        t.jobs[id := job.(status := status, availableAt := now, leasedBy := None, leaseExpiresAt := None,
                          completedAt := if status == Failed then Some(now) else None)],
        Abandon(t.ledger, id, now))
  }

  function RecoverAll(t: Table, page: seq<JobId>, now: int): Table {
    if |page| == 0 then t else RecoverOne(RecoverAll(t, page[..|page| - 1], now), page[|page| - 1], now)
  }

  function ExpiredIds(jobs: map<JobId, Job>, now: int): set<JobId> {
    set id | id in jobs && Expired(jobs[id], now)
  }

  /** A page the database may answer: as many expired rows as there are, 25 at most, in any order. */
  predicate IsExpiredPage(jobs: map<JobId, Job>, now: int, page: seq<JobId>) {
    && Distinct(page)
    && (forall id :: id in page ==> id in ExpiredIds(jobs, now))
    && |page| == if |ExpiredIds(jobs, now)| < RECOVERY_PAGE then |ExpiredIds(jobs, now)| else RECOVERY_PAGE
  }

  /** The claim transaction: recover one page, then lease the chosen row, if there is one. */
  function Claim(t: Table, page: seq<JobId>, choice: Option<JobId>, worker: WorkerId, leaseMs: int, now: int): Table {
    var recovered := RecoverAll(t, page, now);
    if choice.None? || choice.value !in recovered.jobs then recovered
    else Take(recovered, choice.value, worker, leaseMs, now)
  }

  /** Which choices the claim's SELECT can make. */
  ghost predicate MayChoose(jobs: map<JobId, Job>, choice: Option<JobId>, now: int, priorities: set<Priority>,
      kinds: set<JobType>) {
    match choice
    case Some(id) => IsNext(jobs, id, now, priorities, kinds)
    case None => forall id :: id in jobs ==> !Claimable(jobs[id], now, priorities, kinds)
  }

  // ---------- the repository ----------

  lemma {:induction false} NotAfterTransitive(a: ClaimKey, b: ClaimKey, c: ClaimKey)
    requires NotAfter(a, b) && NotAfter(b, c)
    ensures NotAfter(a, c)
  {
  }

  class JobRepository {
    var jobs: map<JobId, Job>
    var ledger: map<(JobId, nat), Attempt>

    function Rows(): Table reads this { Table(jobs, ledger) }

    constructor ()
      ensures Rows() == Table(map[], map[])
    {
      jobs := map[];
      ledger := map[];
    }

    /** Some active job with the key. */
    method FindActive(key: string) returns (existing: Option<JobId>)
      ensures existing.Some? ==> existing.value in jobs && HoldsKey(jobs[existing.value], key)
      ensures existing.None? ==> KeyFree(jobs, Some(key))
    {
      var holders := set id | id in jobs && HoldsKey(jobs[id], key);
      if holders == {} {
        assert forall id :: id in jobs && HoldsKey(jobs[id], key) ==> id in holders;
        return None;
      }
      var id :| id in holders;
      existing := Some(id);
    }

    /** The database checks that max_attempts is positive, and a unique index on active keys refuses
        a second active job with the key; then the first is answered, or, where the key is the empty
        string, the error is thrown. The identifier is fresh. */
    method Enqueue(id: JobId, tenant: Option<TenantId>, kind: JobType, priority: Priority, activeKey: Option<string>,
                   maxAttempts: nat, availableAt: int, createdAt: int)
      returns (answer: Enqueued)
      requires id !in jobs
      modifies this
      ensures answer.Rejected? <==> maxAttempts == 0 || (activeKey == Some("") && !KeyFree(old(jobs), activeKey))
      ensures answer.Created? ==> answer.id == id && KeyFree(old(jobs), activeKey)
      ensures answer.Existing? ==>
          && activeKey.Some? && activeKey.value != ""
          && answer.id in old(jobs) && HoldsKey(old(jobs)[answer.id], activeKey.value)
      ensures var job := NewJob(tenant, kind, priority, activeKey, maxAttempts, availableAt, createdAt);
              Rows() == if answer.Created? then Insert(old(Rows()), id, job) else old(Rows())
      ensures answer.Created? ==>
        && jobs[id].tenant == tenant && jobs[id].kind == kind && jobs[id].priority == priority
        && jobs[id].activeKey == activeKey && jobs[id].maxAttempts == maxAttempts && jobs[id].attempts == 0
        && jobs[id].status == Pending && jobs[id].availableAt == availableAt && jobs[id].createdAt == createdAt
    {
      if maxAttempts == 0 { return Rejected; }
      if activeKey.Some? {
        var existing := FindActive(activeKey.value);
        if existing.Some? { return if activeKey.value == "" then Rejected else Existing(existing.value); }
      }
      jobs := jobs[id := NewJob(tenant, kind, priority, activeKey, maxAttempts, availableAt, createdAt)];
      answer := Created(id);
    }

    method FindExpired(now: int) returns (page: seq<JobId>)
      ensures IsExpiredPage(jobs, now, page)
    {
      var left := ExpiredIds(jobs, now);
      page := [];
      while left != {} && |page| < RECOVERY_PAGE
        invariant Distinct(page)
        invariant forall id :: id in page ==> id in ExpiredIds(jobs, now) && id !in left
        invariant left <= ExpiredIds(jobs, now)
        invariant |page| + |left| == |ExpiredIds(jobs, now)| && |page| <= RECOVERY_PAGE
        decreases left
      {
        var id :| id in left;
        left := left - {id};
        page := page + [id];
      }
    }

    method RecoverExpired(now: int) returns (page: seq<JobId>)
      modifies this
      ensures IsExpiredPage(old(jobs), now, page)
      ensures Rows() == RecoverAll(old(Rows()), page, now)
    {
      page := FindExpired(now);
      for i := 0 to |page|
        invariant Rows() == RecoverAll(old(Rows()), page[..i], now)
      {
        assert page[..i + 1][..i] == page[..i];
        var id := page[i];
        if id in jobs && Expired(jobs[id], now) {
          var status := StatusAfterFailure(jobs[id]);
          jobs := jobs[id := jobs[id].(status := status, availableAt := now, leasedBy := None, leaseExpiresAt := None,
                                       completedAt := if status == Failed then Some(now) else None)];
          ledger := Abandon(ledger, id, now);
        }
      }
      assert page[..|page|] == page;
    }

    method LastServedAt(tenant: Option<TenantId>) returns (at: int)
      ensures at == LastServed(jobs, tenant)
    {
      var ids := ServedJobs(jobs, tenant);
      if ids == {} { return EPOCH; }
      var latest :| latest in ids;
      var left := ids - {latest};
      while left != {}
        invariant latest in ids && left <= ids
        invariant forall o :: o in ids && o !in left ==> jobs[o].completedAt.value <= jobs[latest].completedAt.value
        decreases left
      {
        var id :| id in left;
        left := left - {id};
        if jobs[id].completedAt.value > jobs[latest].completedAt.value { latest := id; }
      }
      return jobs[latest].completedAt.value;
    }

    method SelectNext(now: int, priorities: set<Priority>, kinds: set<JobType>) returns (choice: Option<JobId>)
      ensures MayChoose(jobs, choice, now, priorities, kinds)
    {
      choice := None;
      var best := ClaimKey(0, 0, 0, 0);
      var left := set id | id in jobs && Claimable(jobs[id], now, priorities, kinds);
      ghost var all := left;
      while left != {}
        invariant left <= all
        invariant all == set id | id in jobs && Claimable(jobs[id], now, priorities, kinds)
        invariant choice.None? ==> left == all
        invariant choice.Some? ==> choice.value in all && best == KeyOf(jobs, jobs[choice.value])
        invariant choice.Some? ==> forall o :: o in all && o !in left ==> NotAfter(best, KeyOf(jobs, jobs[o]))
        decreases left
      {
        var id :| id in left;
        var served := LastServedAt(jobs[id].tenant);
        var key := ClaimKey(Rank(jobs[id].priority), served, jobs[id].availableAt, jobs[id].createdAt);
        if choice.None? || !NotAfter(best, key) {
          forall o | o in all && o !in left && choice.Some? ensures NotAfter(key, KeyOf(jobs, jobs[o])) {
            NotAfterTransitive(key, best, KeyOf(jobs, jobs[o]));
          }
          choice, best := Some(id), key;
        }
        left := left - {id};
      }
      assert forall id :: id in jobs && Claimable(jobs[id], now, priorities, kinds) ==> id in all;
    }

    method ClaimNext(worker: WorkerId, leaseMs: int, now: int, priorities: set<Priority>, kinds: set<JobType>)
      returns (choice: Option<JobId>, ghost page: seq<JobId>)
      modifies this
      ensures priorities == {} || kinds == {} ==> choice.None? && Rows() == old(Rows())
      ensures priorities != {} && kinds != {} ==>
                && IsExpiredPage(old(jobs), now, page)
                && MayChoose(RecoverAll(old(Rows()), page, now).jobs, choice, now, priorities, kinds)
                && Rows() == Claim(old(Rows()), page, choice, worker, leaseMs, now)
    {
      choice, page := None, [];
      if priorities == {} || kinds == {} { return; }
      page := RecoverExpired(now);
      choice := SelectNext(now, priorities, kinds);
      if choice.Some? {
        var id := choice.value;
        var job := jobs[id];
        jobs := jobs[id := job.(status := Running, leasedBy := Some(worker), leaseExpiresAt := Some(now + leaseMs),
                                heartbeatAt := Some(now), leaseVersion := job.leaseVersion + 1,
                                attempts := job.attempts + 1,
                                startedAt := if job.startedAt.Some? then job.startedAt else Some(now))];
        ledger := ledger[(id, job.attempts + 1) := Attempt(worker, RunningAttempt, None, None)];
      }
    }

    method Heartbeat(id: JobId, lease: Lease, leaseMs: int, now: int) returns (ok: bool)
      modifies this
      ensures ok == old(Owns(Rows(), id, lease))
      ensures Rows() == Beat(old(Rows()), id, lease, leaseMs, now)
    {
      ok := Owns(Rows(), id, lease);
      if ok {
        jobs := jobs[id := jobs[id].(heartbeatAt := Some(now), leaseExpiresAt := Some(now + leaseMs))];
      }
    }

    /** `valid` is false where the source throws: a count that is negative or no safe integer, or a
        total that is below it or none. */
    method ReportProgress(id: JobId, lease: Lease, current: int, total: Option<int>,
        message: Option<string>) returns (valid: bool, ok: bool)
      modifies this
      ensures valid <==>
        (0 <= current <= 9_007_199_254_740_991
         && (total.Some? ==> current <= total.value <= 9_007_199_254_740_991))
      ensures !valid ==> !ok && Rows() == old(Rows())
      ensures valid ==> ok == old(Owns(Rows(), id, lease))
      ensures valid ==> Rows() == Report(old(Rows()), id, lease, ProgressOf(current, total, message))
      ensures ok ==>
        (id in jobs && jobs[id].progress.Some?
         && var p := jobs[id].progress.value;
            && p.current == current && p.message.Some? == message.Some? && p.total.Some? == total.Some?
            && (total.Some? ==> p.total.value == total.value)
            && (message.Some? ==> p.message.value <= message.value && |p.message.value| == Min(|message.value|, 200)))
    {
      valid := IsProgress(current, total);
      ok := valid && Owns(Rows(), id, lease);
      if ok {
        jobs := jobs[id := jobs[id].(progress := Some(ProgressOf(current, total, message)))];
      }
    }

    method RetryOrFail(id: JobId, lease: Lease, availableAt: int, error: string, now: int)
      returns (status: Option<Status>)
      modifies this
      ensures old(!Owns(Rows(), id, lease)) ==> status.None?
      ensures old(Owns(Rows(), id, lease)) ==> id in old(jobs) && status == Some(StatusAfterFailure(old(jobs[id])))
      ensures Rows() == GiveBack(old(Rows()), id, lease, availableAt, error, now)
    {
      if !Owns(Rows(), id, lease) { return None; }
      var job := jobs[id];
      var next := StatusAfterFailure(job);
      var code := Prefix(error, 80);
      jobs := jobs[id := job.(status := next, availableAt := availableAt,
                              completedAt := if next == Failed then Some(now) else None,
                              leasedBy := None, leaseExpiresAt := None, lastErrorCode := Some(code))];
      ledger := Finish(ledger, (id, job.attempts), if next == Failed then FailedAttempt else Retry, now, Some(code));
      return Some(next);
    }

    method Complete(id: JobId, lease: Lease, now: int) returns (ok: bool)
      modifies this
      ensures ok == old(Owns(Rows(), id, lease))
      ensures Rows() == Succeed(old(Rows()), id, lease, now)
    {
      ok := Owns(Rows(), id, lease);
      if ok {
        jobs := jobs[id := jobs[id].(status := Succeeded, completedAt := Some(now), leasedBy := None,
            leaseExpiresAt := None)];
        ledger := Finish(ledger, (id, lease.version), SucceededAttempt, now, None);
      }
    }
  }
}
