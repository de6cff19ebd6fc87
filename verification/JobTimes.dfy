/** When jobs are claimed and how long leases last, in the fields of the rows. */
module JobTimes {
  import opened Basics
  import opened Wrappers
  import opened JobTable
  import opened JobRuns

  // ---------- what a claim takes ----------

  lemma {:induction false} RecoveredOrSame(t: Table, page: seq<JobId>, now: int, id: JobId)
    requires id in RecoverAll(t, page, now).jobs
    ensures id in t.jobs
    ensures RecoverAll(t, page, now).jobs[id] == t.jobs[id]
         || (t.jobs[id].status == Running && t.jobs[id].leaseExpiresAt.Some? && t.jobs[id].leaseExpiresAt.value < now)
  {
    if |page| > 0 { RecoveredOrSame(t, page[..|page| - 1], now, id); }
  }

  /** A claim takes no job but one that waits, is due, has an attempt left and is admitted; the job
      waited before, or its lease had just expired. */
  lemma {:induction false} ClaimedIsDue(t: Table, s: Step, id: JobId)
    requires Enabled(t, s) && s.ClaimStep? && s.choice == Some(id)
    ensures var jobs := RecoverAll(t, s.page, s.now).jobs;
            && id in jobs && (jobs[id].status == Pending || jobs[id].status == RetryWait)
            && jobs[id].availableAt <= s.now && jobs[id].attempts < jobs[id].maxAttempts
            && jobs[id].priority in s.priorities && jobs[id].kind in s.kinds
            && id in t.jobs
            && (jobs[id] == t.jobs[id] || (t.jobs[id].status == Running && t.jobs[id].leaseExpiresAt.Some?
                  && t.jobs[id].leaseExpiresAt.value < s.now))
  {
    RecoveredOrSame(t, s.page, s.now, id);
  }

  /** No claim of the run comes as late as `at`. */
  predicate ClaimsBefore(steps: seq<Step>, at: int) {
    forall i :: 0 <= i < |steps| && steps[i].ClaimStep? ==> steps[i].now < at
  }

  predicate NeverTakes(steps: seq<Step>, id: JobId) {
    forall i :: 0 <= i < |steps| && steps[i].ClaimStep? ==> steps[i].choice != Some(id)
  }

  lemma {:induction false} StepWaits(t: Table, s: Step, id: JobId)
    requires Enabled(t, s) && id in t.jobs && (t.jobs[id].status == Pending || t.jobs[id].status == RetryWait)
    requires s.ClaimStep? ==> s.now < t.jobs[id].availableAt
    ensures id in Apply(t, s).jobs && Apply(t, s).jobs[id] == t.jobs[id]
    ensures s.ClaimStep? ==> s.choice != Some(id)
  {
    match s
    case ClaimStep(page, choice, _, _, now, _, _) =>
      RecoverAllWaiting(t, page, now, id);
      if choice == Some(id) { ClaimedIsDue(t, s, id); }
    case RecoverStep(page, now) => RecoverAllWaiting(t, page, now, id);
    case _ =>
  }

  /** A job that waits for its time is left alone until then, whatever else happens. */
  lemma {:induction false} WaitsForItsTime(t: Table, steps: seq<Step>, id: JobId)
    requires ValidRun(t, steps) && id in t.jobs && (t.jobs[id].status == Pending || t.jobs[id].status == RetryWait)
    requires ClaimsBefore(steps, t.jobs[id].availableAt)
    ensures id in Run(t, steps).jobs && Run(t, steps).jobs[id] == t.jobs[id] && NeverTakes(steps, id)
  {
    if |steps| > 0 {
      var before, s := steps[..|steps| - 1], steps[|steps| - 1];
      WaitsForItsTime(t, before, id);
      StepWaits(Run(t, before), s, id);
      forall i | 0 <= i < |steps| && steps[i].ClaimStep? ensures steps[i].choice != Some(id) {
        if i < |before| { assert before[i] == steps[i]; }
      }
    }
  }

  /** The retry delay is kept: a job given back until `at` is in no run claimed before `at`. */
  lemma {:induction false} NotBeforeRetry(t: Table, id: JobId, lease: Lease, at: int, error: string, now: int,
      steps: seq<Step>)
    requires Inv(t) && Owns(t, id, lease) && ValidRun(GiveBack(t, id, lease, at, error, now), steps)
    requires ClaimsBefore(steps, at)
    ensures NeverTakes(steps, id)
    ensures id in Run(GiveBack(t, id, lease, at, error, now), steps).jobs
    ensures t.jobs[id].attempts < t.jobs[id].maxAttempts ==>
              var job := Run(GiveBack(t, id, lease, at, error, now), steps).jobs[id];
              job.status == RetryWait && job.availableAt == at && job.attempts == t.jobs[id].attempts
  {
    var u := GiveBack(t, id, lease, at, error, now);
    if t.jobs[id].attempts < t.jobs[id].maxAttempts {
      WaitsForItsTime(u, steps, id);
    } else {
      FinalNeverTaken(u, steps, id);
    }
  }

  /** Nor is a finished job ever claimed. */
  lemma {:induction false} FinalNeverTaken(t: Table, steps: seq<Step>, id: JobId)
    requires ValidRun(t, steps) && id in t.jobs && (t.jobs[id].status == Succeeded || t.jobs[id].status == Failed)
    ensures NeverTakes(steps, id) && id in Run(t, steps).jobs && Run(t, steps).jobs[id] == t.jobs[id]
  {
    FinalForever(t, steps, id);
    if |steps| > 0 {
      var before, s := steps[..|steps| - 1], steps[|steps| - 1];
      FinalNeverTaken(t, before, id);
      if s.ClaimStep? && s.choice == Some(id) {
        ClaimedIsDue(Run(t, before), s, id);
        assert false;
      }
      forall i | 0 <= i < |steps| && steps[i].ClaimStep? ensures steps[i].choice != Some(id) {
        if i < |before| { assert before[i] == steps[i]; }
      }
    }
  }

  // ---------- how long a lease lasts ----------

  /** Nobody presents the lease to end it, its heartbeats extend it to `until` at least, and claims and
      recoveries come no later than that. */
  predicate Within(s: Step, id: JobId, lease: Lease, until: int) {
    match s
    case RetryOrFailStep(i, l, _, _, _) => i != id || l != lease
    case CompleteStep(i, l, _) => i != id || l != lease
    case HeartbeatStep(i, l, leaseMs, now) => i == id && l == lease ==> now + leaseMs >= until
    case ClaimStep(_, _, _, _, now, _, _) => now <= until
    case RecoverStep(_, now) => now <= until
    case _ => true
  }

  lemma {:induction false} StepWithin(t: Table, s: Step, id: JobId, lease: Lease, until: int)
    requires Enabled(t, s) && Owns(t, id, lease) && Within(s, id, lease, until)
    requires t.jobs[id].leaseExpiresAt.Some? && t.jobs[id].leaseExpiresAt.value >= until
    ensures Owns(Apply(t, s), id, lease)
    ensures Apply(t, s).jobs[id].leaseExpiresAt.Some? && Apply(t, s).jobs[id].leaseExpiresAt.value >= until
  {
    LeaseEndsIff(t, s, id, lease);
    match s
    case ClaimStep(page, _, _, _, now, _, _) => RecoverAllElsewhere(t, page, now, id);
    case RecoverStep(page, now) => RecoverAllElsewhere(t, page, now, id);
    case _ =>
  }

  lemma {:induction false} OwnedUntil(t: Table, steps: seq<Step>, id: JobId, lease: Lease, until: int)
    requires ValidRun(t, steps) && Owns(t, id, lease)
    requires t.jobs[id].leaseExpiresAt.Some? && t.jobs[id].leaseExpiresAt.value >= until
    requires forall i :: 0 <= i < |steps| ==> Within(steps[i], id, lease, until)
    ensures Owns(Run(t, steps), id, lease)
    ensures Run(t, steps).jobs[id].leaseExpiresAt.Some? && Run(t, steps).jobs[id].leaseExpiresAt.value >= until
  {
    if |steps| > 0 {
      OwnedUntil(t, steps[..|steps| - 1], id, lease, until);
      assert Within(steps[|steps| - 1], id, lease, until);
      StepWithin(Run(t, steps[..|steps| - 1]), steps[|steps| - 1], id, lease, until);
    }
  }

  /** A job claimed at `now` for `leaseMs` is its worker's alone until `now + leaseMs`. */
  lemma {:induction false} LeaseLasts(t: Table, s: Step, id: JobId, steps: seq<Step>)
    requires Inv(t) && Enabled(t, s) && s.ClaimStep? && s.choice == Some(id) && ValidRun(Apply(t, s), steps)
    requires var lease := Lease(s.worker, Apply(t, s).jobs[id].attempts);
             forall i :: 0 <= i < |steps| ==> Within(steps[i], id, lease, s.now + s.leaseMs)
    ensures Owns(Run(Apply(t, s), steps), id, Lease(s.worker, Apply(t, s).jobs[id].attempts))
  {
    ClaimGrants(t, s, id);
    hide Inv, Enabled, Apply, Owns, Within;
    OwnedUntil(Apply(t, s), steps, id, Lease(s.worker, Apply(t, s).jobs[id].attempts), s.now + s.leaseMs);
  }

  lemma {:induction false} ClaimGrants(t: Table, s: Step, id: JobId)
    requires Inv(t) && Enabled(t, s) && s.ClaimStep? && s.choice == Some(id)
    ensures id in Apply(t, s).jobs && Owns(Apply(t, s), id, Lease(s.worker, Apply(t, s).jobs[id].attempts))
    ensures Apply(t, s).jobs[id].leaseExpiresAt == Some(s.now + s.leaseMs)
  {
    var u := RecoverAll(t, s.page, s.now);
    ClaimedIsDue(t, s, id);
    assert Apply(t, s) == Take(u, id, s.worker, s.leaseMs, s.now);
    RecoverAllKeeps(t, s.page, s.now);
    AtJob(u, id);
    hide Inv, LedgerOf, RecoverAll, RowOf, Enabled, Apply, Take, Owns;
    TakenLease(u, id, s.worker, s.leaseMs, s.now);
  }

  lemma {:induction false} TakenLease(t: Table, id: JobId, worker: WorkerId, leaseMs: int, now: int)
    requires id in t.jobs && RowOf(t.jobs[id])
    ensures var u := Take(t, id, worker, leaseMs, now);
            && id in u.jobs && Owns(u, id, Lease(worker, u.jobs[id].attempts))
            && u.jobs[id].leaseExpiresAt == Some(now + leaseMs)
  {
  }

  /** And a heartbeat at `now` for `leaseMs` prolongs, or shortens, the lease to `now + leaseMs`. */
  lemma {:induction false} HeartbeatProlongs(t: Table, id: JobId, lease: Lease, leaseMs: int, now: int,
      steps: seq<Step>)
    requires Owns(t, id, lease) && ValidRun(Beat(t, id, lease, leaseMs, now), steps)
    requires forall i :: 0 <= i < |steps| ==> Within(steps[i], id, lease, now + leaseMs)
    ensures Owns(Run(Beat(t, id, lease, leaseMs, now), steps), id, lease)
    ensures Beat(t, id, lease, leaseMs, now).jobs[id].leaseExpiresAt == Some(now + leaseMs)
  {
    OwnedUntil(Beat(t, id, lease, leaseMs, now), steps, id, lease, now + leaseMs);
  }

  /** Past its time it is anybody's: a recovery that finds the job takes the lease from its owner, and
      gives the job back at once, or fails it for good when no attempt is left. */
  lemma {:induction false} LeaseRunsOut(t: Table, page: seq<JobId>, at: int, id: JobId)
    requires Inv(t) && id in t.jobs && id in page && t.jobs[id].status == Running
    requires t.jobs[id].leaseExpiresAt.Some? && t.jobs[id].leaseExpiresAt.value < at
    ensures var u := RecoverAll(t, page, at);
            && id in u.jobs && u.jobs[id].leasedBy == None && u.jobs[id].leaseExpiresAt == None
            && u.jobs[id].attempts == t.jobs[id].attempts
            && (t.jobs[id].attempts < t.jobs[id].maxAttempts ==>
                  u.jobs[id].status == RetryWait && u.jobs[id].availableAt == at && u.jobs[id].completedAt == None)
            && (t.jobs[id].attempts == t.jobs[id].maxAttempts ==>
                  u.jobs[id].status == Failed && u.jobs[id].completedAt == Some(at))
            && (id, t.jobs[id].attempts) in u.ledger
            && u.ledger[(id, t.jobs[id].attempts)].outcome == Abandoned
            && u.ledger[(id, t.jobs[id].attempts)].finishedAt == Some(at)
  {
    if |page| > 0 {
      var before, last := page[..|page| - 1], page[|page| - 1];
      var u := RecoverAll(t, before, at);
      RecoverAllKeeps(t, before, at);
      assert page == before + [last];
      if id in before {
        LeaseRunsOut(t, before, at, id);
        RecoveredStays(u, last, at, id);
      } else {
        RecoverAllElsewhere(t, before, at, id);
        RecoveredNow(u, at, id);
      }
    }
  }

  lemma {:induction false} RecoveredNow(t: Table, at: int, id: JobId)
    requires Inv(t) && id in t.jobs && t.jobs[id].status == Running
    requires t.jobs[id].leaseExpiresAt.Some? && t.jobs[id].leaseExpiresAt.value < at
    ensures var u, n := RecoverOne(t, id, at), t.jobs[id].attempts;
            && id in u.jobs && u.jobs[id].leasedBy == None && u.jobs[id].leaseExpiresAt == None
            && u.jobs[id].attempts == n
            && (n < t.jobs[id].maxAttempts ==>
                  u.jobs[id].status == RetryWait && u.jobs[id].availableAt == at && u.jobs[id].completedAt == None)
            && (n == t.jobs[id].maxAttempts ==> u.jobs[id].status == Failed && u.jobs[id].completedAt == Some(at))
            && (id, n) in u.ledger && u.ledger[(id, n)].outcome == Abandoned
            && u.ledger[(id, n)].finishedAt == Some(at)
  {
    AtJob(t, id);
    LastRuns(t, id);
    hide Inv, RowOf, LedgerOf;
  }

  lemma {:induction false} RecoveredStays(t: Table, other: JobId, at: int, id: JobId)
    requires id in t.jobs && t.jobs[id].status != Running && (id, t.jobs[id].attempts) in t.ledger
    requires t.ledger[(id, t.jobs[id].attempts)].outcome != RunningAttempt
    ensures var u := RecoverOne(t, other, at);
            && id in u.jobs && u.jobs[id] == t.jobs[id] && (id, t.jobs[id].attempts) in u.ledger
            && u.ledger[(id, t.jobs[id].attempts)] == t.ledger[(id, t.jobs[id].attempts)]
  {
  }

  // ---------- how an attempt is recorded ----------

  /** What is kept of an error: all of it, up to eighty characters. */
  predicate IsCode(code: Option<string>, error: string) {
    code.Some? && code.value <= error && (|code.value| == 80 || (code.value == error && |error| < 80))
  }

  /** A job given back waits for its retry time, or has failed when that was its last attempt; the
      attempt row says which, when, and why. */
  lemma {:induction false} GivenBackSays(t: Table, id: JobId, lease: Lease, at: int, error: string, now: int)
    requires Inv(t) && Owns(t, id, lease)
    ensures var u, n := GiveBack(t, id, lease, at, error, now), t.jobs[id].attempts;
            && id in u.jobs && (id, n) in u.ledger
            && u.jobs[id].leasedBy == None && u.jobs[id].leaseExpiresAt == None && u.jobs[id].availableAt == at
            && IsCode(u.jobs[id].lastErrorCode, error) && u.ledger[(id, n)].errorCode == u.jobs[id].lastErrorCode
            && u.ledger[(id, n)].finishedAt == Some(now)
            && (n < t.jobs[id].maxAttempts ==>
                  u.jobs[id].status == RetryWait && u.jobs[id].completedAt == None
                  && u.ledger[(id, n)].outcome == Retry)
            && (n == t.jobs[id].maxAttempts ==>
                  u.jobs[id].status == Failed && u.jobs[id].completedAt == Some(now)
                  && u.ledger[(id, n)].outcome == FailedAttempt)
  {
    AtJob(t, id);
    LastRuns(t, id);
    hide Inv, RowOf, LedgerOf;
  }

  lemma {:induction false} SucceededSays(t: Table, id: JobId, lease: Lease, now: int)
    requires Inv(t) && Owns(t, id, lease)
    ensures var u, n := Succeed(t, id, lease, now), t.jobs[id].attempts;
            && id in u.jobs && (id, n) in u.ledger
            && u.jobs[id].status == Succeeded && u.jobs[id].completedAt == Some(now)
            && u.jobs[id].leasedBy == None && u.jobs[id].leaseExpiresAt == None
            && u.ledger[(id, n)].outcome == SucceededAttempt && u.ledger[(id, n)].finishedAt == Some(now)
  {
    AtJob(t, id);
    LastRuns(t, id);
    assert t.jobs[id].attempts == lease.version;
    hide Inv, RowOf, LedgerOf;
  }

  /** The first claim of a job is when it started, whatever becomes of that attempt. */
  lemma {:induction false} StartedOnce(t: Table, steps: seq<Step>, id: JobId)
    requires ValidRun(t, steps) && id in t.jobs
    ensures id in Run(t, steps).jobs
    ensures t.jobs[id].startedAt.Some? ==> Run(t, steps).jobs[id].startedAt == t.jobs[id].startedAt
  {
    if |steps| > 0 {
      StartedOnce(t, steps[..|steps| - 1], id);
      StepStart(Run(t, steps[..|steps| - 1]), steps[|steps| - 1], id);
    }
  }

  lemma {:induction false} StepStart(t: Table, s: Step, id: JobId)
    requires Enabled(t, s) && id in t.jobs
    ensures id in Apply(t, s).jobs
    ensures t.jobs[id].startedAt.Some? ==> Apply(t, s).jobs[id].startedAt == t.jobs[id].startedAt
    ensures t.jobs[id].startedAt.None? && s.ClaimStep? && s.choice == Some(id) ==>
              Apply(t, s).jobs[id].startedAt == Some(s.now)
  {
    match s
    case ClaimStep(page, _, _, _, now, _, _) => RecoveryKeepsStart(t, page, now, id);
    case RecoverStep(page, now) => RecoveryKeepsStart(t, page, now, id);
    case _ =>
  }

  lemma {:induction false} RecoveryKeepsStart(t: Table, page: seq<JobId>, now: int, id: JobId)
    requires id in t.jobs
    ensures id in RecoverAll(t, page, now).jobs && RecoverAll(t, page, now).jobs[id].startedAt == t.jobs[id].startedAt
  {
    if |page| > 0 { RecoveryKeepsStart(t, page[..|page| - 1], now, id); }
  }
}
