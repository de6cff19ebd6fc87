/** Fairness of the claim order: better priorities first, and no tenant served twice over another. */
module ClaimOrder {
  import opened Wrappers
  import opened JobTable
  import opened JobRuns

  /** A claimable job of a better priority is always taken before one of a worse priority. */
  lemma {:induction false} BetterPriorityFirst(t: Table, s: Step, other: JobId)
    requires Enabled(t, s) && s.ClaimStep?
    requires other in RecoverAll(t, s.page, s.now).jobs
    requires Claimable(RecoverAll(t, s.page, s.now).jobs[other], s.now, s.priorities, s.kinds)
    ensures IsClaim(s)
    ensures var jobs := RecoverAll(t, s.page, s.now).jobs;
            s.choice.value in jobs && Rank(jobs[s.choice.value].priority) <= Rank(jobs[other].priority)
  {
  }

  /** The step completes a job of the tenant. */
  predicate Serves(t: Table, s: Step, tenant: Option<TenantId>) {
    s.CompleteStep? && Owns(t, s.id, s.lease) && t.jobs[s.id].tenant == tenant
  }

  predicate NeverServes(t: Table, steps: seq<Step>, tenant: Option<TenantId>) {
    |steps| > 0 ==>
      && NeverServes(t, steps[..|steps| - 1], tenant)
      && !Serves(Run(t, steps[..|steps| - 1]), steps[|steps| - 1], tenant)
  }

  /** Everything the tenant has had completed was completed before `time`. */
  predicate ServedBefore(t: Table, tenant: Option<TenantId>, time: int) {
    forall o :: o in ServedJobs(t.jobs, tenant) ==> t.jobs[o].completedAt.value < time
  }

  lemma {:induction false} RecoveryServesNobody(t: Table, page: seq<JobId>, now: int, tenant: Option<TenantId>)
    ensures ServedJobs(RecoverAll(t, page, now).jobs, tenant) == ServedJobs(t.jobs, tenant)
    ensures forall o :: o in ServedJobs(t.jobs, tenant) ==> RecoverAll(t, page, now).jobs[o] == t.jobs[o]
  {
    if |page| > 0 {
      RecoveryServesNobody(t, page[..|page| - 1], now, tenant);
      var u := RecoverAll(t, page[..|page| - 1], now);
      assert ServedJobs(RecoverOne(u, page[|page| - 1], now).jobs, tenant) == ServedJobs(u.jobs, tenant);
    }
  }

  lemma {:induction false} StepServedBefore(t: Table, s: Step, tenant: Option<TenantId>, time: int)
    requires Enabled(t, s) && ServedBefore(t, tenant, time) && !Serves(t, s, tenant)
    ensures ServedBefore(Apply(t, s), tenant, time)
  {
    match s
    case ClaimStep(page, choice, worker, leaseMs, now, _, _) =>
      RecoveryServesNobody(t, page, now, tenant);
      var u := RecoverAll(t, page, now);
      hide RecoverAll, Take;
      if choice.Some? { TakeServesNobody(u, choice.value, worker, leaseMs, now, tenant); }
    case RecoverStep(page, now) => RecoveryServesNobody(t, page, now, tenant);
    case CompleteStep(id, lease, now) => SuccessServesOne(t, id, lease, now, tenant);
    case _ =>
  }

  lemma {:induction false} TakeServesNobody(t: Table, id: JobId, worker: WorkerId, leaseMs: int, now: int,
      tenant: Option<TenantId>)
    requires id in t.jobs && t.jobs[id].status != Succeeded
    ensures var u := Take(t, id, worker, leaseMs, now);
            && ServedJobs(u.jobs, tenant) == ServedJobs(t.jobs, tenant)
            && forall o :: o in ServedJobs(t.jobs, tenant) ==> u.jobs[o] == t.jobs[o]
  {
  }

  lemma {:induction false} SuccessServesOne(t: Table, id: JobId, lease: Lease, now: int, tenant: Option<TenantId>)
    requires Owns(t, id, lease) ==> t.jobs[id].tenant != tenant
    ensures ServedJobs(Succeed(t, id, lease, now).jobs, tenant) == ServedJobs(t.jobs, tenant)
    ensures forall o :: o in ServedJobs(t.jobs, tenant) ==> Succeed(t, id, lease, now).jobs[o] == t.jobs[o]
  {
  }

  lemma {:induction false} RunServedBefore(t: Table, steps: seq<Step>, tenant: Option<TenantId>, time: int)
    requires ValidRun(t, steps) && NeverServes(t, steps, tenant) && ServedBefore(t, tenant, time)
    ensures ServedBefore(Run(t, steps), tenant, time)
  {
    if |steps| > 0 {
      RunServedBefore(t, steps[..|steps| - 1], tenant, time);
      StepServedBefore(Run(t, steps[..|steps| - 1]), steps[|steps| - 1], tenant, time);
    }
  }

  /** Bounded bypass. A job of one tenant completes at `time`, later than every completion so far.
      From then on, by whatever steps of whatever workers, as long as nothing of another tenant
      completes, a claim that finds a job `other` of that tenant claimable takes no job of the
      first tenant with the same priority, or a worse one. */
  lemma {:induction false} BoundedBypass(t: Table, id: JobId, lease: Lease, time: int, steps: seq<Step>, claim: Step,
      other: JobId)
    requires Owns(t, id, lease) && time > EPOCH
    requires forall o :: o in t.jobs && t.jobs[o].status == Succeeded && t.jobs[o].completedAt.Some? ==>
        t.jobs[o].completedAt.value < time
    requires var served := Succeed(t, id, lease, time);
             ValidRun(served, steps) && Enabled(Run(served, steps), claim) && claim.ClaimStep?
    requires var jobs := RecoverAll(Run(Succeed(t, id, lease, time), steps), claim.page, claim.now).jobs;
             && other in jobs && Claimable(jobs[other], claim.now, claim.priorities, claim.kinds)
             && jobs[other].tenant != t.jobs[id].tenant
             && NeverServes(Succeed(t, id, lease, time), steps, jobs[other].tenant)
    ensures IsClaim(claim)
    ensures var jobs := RecoverAll(Run(Succeed(t, id, lease, time), steps), claim.page, claim.now).jobs;
            && claim.choice.value in jobs
            && (jobs[claim.choice.value].tenant == t.jobs[id].tenant ==>
                  Rank(jobs[claim.choice.value].priority) < Rank(jobs[other].priority))
  {
    var served := Succeed(t, id, lease, time);
    var u := Run(served, steps);
    var jobs := RecoverAll(u, claim.page, claim.now).jobs;
    var mine, theirs := t.jobs[id].tenant, jobs[other].tenant;
    ServedNow(t, id, lease, time, theirs);
    hide Succeed, Run, RecoverAll, Claimable, LastServed, ServedJobs, ServedBefore, ValidRun, NeverServes, Rank;
    RunServedBefore(served, steps, theirs, time);
    FinalForever(served, steps, id);
    RecoveryServesNobody(u, claim.page, claim.now, mine);
    RecoveryServesNobody(u, claim.page, claim.now, theirs);
    LastServedOf(u.jobs, jobs, id, time, theirs);
    LeastServedFirst(jobs, claim.choice, other, claim.now, claim.priorities, claim.kinds);
  }

  lemma {:induction false} ServedNow(t: Table, id: JobId, lease: Lease, time: int, theirs: Option<TenantId>)
    requires Owns(t, id, lease) && theirs != t.jobs[id].tenant
    requires forall o :: o in t.jobs && t.jobs[o].status == Succeeded && t.jobs[o].completedAt.Some? ==>
        t.jobs[o].completedAt.value < time
    ensures var served := Succeed(t, id, lease, time);
            && id in served.jobs && served.jobs[id].status == Succeeded && served.jobs[id].completedAt == Some(time)
            && served.jobs[id].tenant == t.jobs[id].tenant && ServedBefore(served, theirs, time)
  {
  }

  /** The tenant of `id` was last served at `time` or later, the other one before it. */
  lemma {:induction false} LastServedOf(before: map<JobId, Job>, jobs: map<JobId, Job>, id: JobId, time: int,
      theirs: Option<TenantId>)
    requires id in before && before[id].status == Succeeded && before[id].completedAt == Some(time) && time > EPOCH
    requires ServedJobs(jobs, before[id].tenant) == ServedJobs(before, before[id].tenant)
    requires forall o :: o in ServedJobs(before, before[id].tenant) ==> o in jobs && jobs[o] == before[o]
    requires ServedJobs(jobs, theirs) == ServedJobs(before, theirs)
    requires forall o :: o in ServedJobs(before, theirs) ==>
        o in jobs && jobs[o] == before[o] && before[o].completedAt.value < time
    ensures LastServed(jobs, before[id].tenant) >= time > LastServed(jobs, theirs)
  {
    assert id in ServedJobs(before, before[id].tenant);
  }

  /** Within a priority the tenant served longest ago comes first. */
  lemma {:induction false} LeastServedFirst(jobs: map<JobId, Job>, choice: Option<JobId>, other: JobId, now: int,
                                            priorities: set<Priority>, kinds: set<JobType>)
    requires MayChoose(jobs, choice, now, priorities, kinds)
    requires other in jobs && Claimable(jobs[other], now, priorities, kinds)
    ensures choice.Some? && choice.value in jobs
    ensures LastServed(jobs, jobs[choice.value].tenant) > LastServed(jobs, jobs[other].tenant) ==>
              Rank(jobs[choice.value].priority) < Rank(jobs[other].priority)
  {
    assert NotAfter(KeyOf(jobs, jobs[choice.value]), KeyOf(jobs, jobs[other]));
  }

  // ---------- one worker ----------

  predicate NoneRunning(t: Table) { forall id :: id in t.jobs ==> t.jobs[id].status != Running }

  /** One worker whose jobs all succeed, at increasing times: it claims when nothing runs, no lease
      runs out and nothing is given back. The job `other` is due and admitted at every claim. Jobs
      may be enqueued, and any heartbeats and progress may come, at any time. */
  predicate Orderly(t: Table, s: Step, other: JobId, theirs: Option<TenantId>, rank: nat) {
    match s
    case ClaimStep(page, _, _, _, now, priorities, kinds) =>
      && page == [] && NoneRunning(t)
      && other in t.jobs && t.jobs[other].tenant == theirs && Rank(t.jobs[other].priority) == rank
      && Claimable(t.jobs[other], now, priorities, kinds)
    case RecoverStep(page, _) => page == []
    case RetryOrFailStep(id, lease, _, _, _) => !Owns(t, id, lease)
    case CompleteStep(id, lease, now) => Owns(t, id, lease) ==> now > EPOCH && AllServedBefore(t, now)
    case _ => true
  }

  predicate AllServedBefore(t: Table, time: int) {
    forall o :: o in t.jobs && t.jobs[o].status == Succeeded && t.jobs[o].completedAt.Some? ==>
        t.jobs[o].completedAt.value < time
  }

  predicate OrderlyRun(t: Table, steps: seq<Step>, other: JobId, theirs: Option<TenantId>, rank: nat) {
    |steps| > 0 ==>
      && OrderlyRun(t, steps[..|steps| - 1], other, theirs, rank)
      && Orderly(Run(t, steps[..|steps| - 1]), steps[|steps| - 1], other, theirs, rank)
  }

  /** The step claims a job of the tenant at that priority or a worse one. */
  predicate TakesFrom(t: Table, s: Step, tenant: Option<TenantId>, rank: nat) {
    s.ClaimStep? && s.choice.Some? && s.choice.value in t.jobs
    && t.jobs[s.choice.value].tenant == tenant && Rank(t.jobs[s.choice.value].priority) >= rank
  }

  function TimesTaken(t: Table, steps: seq<Step>, tenant: Option<TenantId>, rank: nat): nat {
    if |steps| == 0 then 0
    else
      TimesTaken(t, steps[..|steps| - 1], tenant, rank)
      + if TakesFrom(Run(t, steps[..|steps| - 1]), steps[|steps| - 1], tenant, rank) then 1 else 0
  }

  predicate RunsFor(t: Table, tenant: Option<TenantId>) {
    exists id :: id in t.jobs && t.jobs[id].tenant == tenant && t.jobs[id].status == Running
  }

  /** The tenant has had its turn: a job of it runs, or it was served after the other tenant. */
  ghost predicate HadTurn(t: Table, mine: Option<TenantId>, theirs: Option<TenantId>) {
    RunsFor(t, mine) || LastServed(t.jobs, mine) > LastServed(t.jobs, theirs)
  }

  lemma {:induction false} SameService(before: map<JobId, Job>, after: map<JobId, Job>, tenant: Option<TenantId>)
    requires ServedJobs(after, tenant) == ServedJobs(before, tenant)
    requires forall o :: o in ServedJobs(before, tenant) ==> after[o].completedAt == before[o].completedAt
    ensures LastServed(after, tenant) == LastServed(before, tenant)
  {
  }

  /** A step that changes one row and serves nobody. */
  lemma {:induction false} OneRowChanged(t: Table, u: Table, id: JobId, mine: Option<TenantId>,
      theirs: Option<TenantId>)
    requires id in u.jobs && u.jobs == t.jobs[id := u.jobs[id]]
    requires u.jobs[id].status != Succeeded && (id in t.jobs ==> t.jobs[id].status != Succeeded)
    requires id in t.jobs && t.jobs[id].status == Running ==>
        u.jobs[id].status == Running && u.jobs[id].tenant == t.jobs[id].tenant
    requires HadTurn(t, mine, theirs)
    ensures HadTurn(u, mine, theirs)
  {
    OneRowServes(t, u, id, mine);
    OneRowServes(t, u, id, theirs);
    hide LastServed, ServedJobs;
    if RunsFor(t, mine) {
      var r :| r in t.jobs && t.jobs[r].tenant == mine && t.jobs[r].status == Running;
      assert r in u.jobs && u.jobs[r].tenant == mine && u.jobs[r].status == Running;
    }
  }

  lemma {:induction false} OneRowServes(t: Table, u: Table, id: JobId, tenant: Option<TenantId>)
    requires id in u.jobs && u.jobs == t.jobs[id := u.jobs[id]]
    requires u.jobs[id].status != Succeeded && (id in t.jobs ==> t.jobs[id].status != Succeeded)
    ensures LastServed(u.jobs, tenant) == LastServed(t.jobs, tenant)
  {
    hide LastServed;
    assert ServedJobs(u.jobs, tenant) == ServedJobs(t.jobs, tenant);
    SameService(t.jobs, u.jobs, tenant);
  }

  /** A completion serves a tenant other than the waiting one. */
  lemma {:induction false} OtherServed(t: Table, id: JobId, lease: Lease, now: int, mine: Option<TenantId>,
      theirs: Option<TenantId>)
    requires Owns(t, id, lease) && now > EPOCH && AllServedBefore(t, now) && t.jobs[id].tenant != theirs
    requires mine != theirs
    requires HadTurn(t, mine, theirs)
    ensures HadTurn(Succeed(t, id, lease, now), mine, theirs)
  {
    var u := Succeed(t, id, lease, now);
    SuccessServesOne(t, id, lease, now, theirs);
    if t.jobs[id].tenant == mine {
      ServedAfterAll(t, id, lease, now, theirs);
      hide LastServed, ServedJobs, AllServedBefore, Owns, Succeed;
      SameService(t.jobs, u.jobs, theirs);
    } else {
      SuccessServesOne(t, id, lease, now, mine);
      OthersRunOn(t, id, lease, now, mine);
      hide LastServed, ServedJobs, RunsFor, AllServedBefore, Owns, Succeed;
      SameService(t.jobs, u.jobs, theirs);
      SameService(t.jobs, u.jobs, mine);
    }
  }

  lemma {:induction false} ServedAfterAll(t: Table, id: JobId, lease: Lease, now: int, theirs: Option<TenantId>)
    requires Owns(t, id, lease) && now > EPOCH && AllServedBefore(t, now)
    ensures LastServed(Succeed(t, id, lease, now).jobs, t.jobs[id].tenant) >= now > LastServed(t.jobs, theirs)
  {
    assert id in ServedJobs(Succeed(t, id, lease, now).jobs, t.jobs[id].tenant);
  }

  lemma {:induction false} OthersRunOn(t: Table, id: JobId, lease: Lease, now: int, mine: Option<TenantId>)
    requires Owns(t, id, lease) ==> t.jobs[id].tenant != mine
    ensures RunsFor(t, mine) ==> RunsFor(Succeed(t, id, lease, now), mine)
  {
    if RunsFor(t, mine) {
      var u := Succeed(t, id, lease, now);
      var r :| r in t.jobs && t.jobs[r].tenant == mine && t.jobs[r].status == Running;
      assert r in u.jobs && u.jobs[r].tenant == mine && u.jobs[r].status == Running;
    }
  }

  lemma {:induction false} TurnStays(t: Table, s: Step, mine: Option<TenantId>, theirs: Option<TenantId>, other: JobId,
      rank: nat)
    requires Enabled(t, s) && Orderly(t, s, other, theirs, rank) && !Serves(t, s, theirs) && mine != theirs
    requires HadTurn(t, mine, theirs)
    ensures HadTurn(Apply(t, s), mine, theirs)
  {
    hide HadTurn, LastServed;
    match s
    case EnqueueStep(id, job) => OneRowChanged(t, Apply(t, s), id, mine, theirs);
    case ClaimStep(page, choice, _, _, _, _, _) =>
      if choice.Some? { OneRowChanged(t, Apply(t, s), choice.value, mine, theirs); }
    case RecoverStep(_, _) =>
    case HeartbeatStep(id, lease, _, _) =>
      if Owns(t, id, lease) { OneRowChanged(t, Apply(t, s), id, mine, theirs); }
    case ProgressStep(id, lease, _) =>
      if Owns(t, id, lease) { OneRowChanged(t, Apply(t, s), id, mine, theirs); }
    case RetryOrFailStep(_, _, _, _, _) =>
    case CompleteStep(id, lease, now) =>
      if Owns(t, id, lease) { OtherServed(t, id, lease, now, mine, theirs); }
  }

  /** Having had its turn, a tenant is not taken from again while the other one waits. */
  lemma {:induction false} NotTwice(t: Table, s: Step, mine: Option<TenantId>, theirs: Option<TenantId>, other: JobId,
      rank: nat)
    requires Enabled(t, s) && s.ClaimStep? && Orderly(t, s, other, theirs, rank) && HadTurn(t, mine, theirs)
    ensures !TakesFrom(t, s, mine, rank)
  {
    assert RecoverAll(t, s.page, s.now) == t;
    hide LastServed, Claimable;
    LeastServedFirst(t.jobs, s.choice, other, s.now, s.priorities, s.kinds);
  }

  lemma {:induction false} TakenRuns(t: Table, s: Step, mine: Option<TenantId>, rank: nat)
    requires s.ClaimStep? && s.page == [] && TakesFrom(t, s, mine, rank)
    ensures RunsFor(Apply(t, s), mine)
  {
    var u := Apply(t, s);
    assert u.jobs[s.choice.value].tenant == mine && u.jobs[s.choice.value].status == Running;
  }

  /** Bounded bypass over a whole run. With one worker whose jobs succeed at increasing times, while
      a job of one tenant is due and admitted at every claim, and nothing of that tenant completes,
      every other tenant is claimed from at most once at that priority or a worse one. */
  lemma {:induction false} ClaimedAtMostOnce(t: Table, steps: seq<Step>, mine: Option<TenantId>,
      theirs: Option<TenantId>, other: JobId, rank: nat)
    requires ValidRun(t, steps) && OrderlyRun(t, steps, other, theirs, rank) && NeverServes(t, steps, theirs)
    requires mine != theirs
    ensures TimesTaken(t, steps, mine, rank) <= 1
    ensures TimesTaken(t, steps, mine, rank) == 1 ==> HadTurn(Run(t, steps), mine, theirs)
  {
    if |steps| > 0 {
      var u, s := Run(t, steps[..|steps| - 1]), steps[|steps| - 1];
      ClaimedAtMostOnce(t, steps[..|steps| - 1], mine, theirs, other, rank);
      hide Enabled, Orderly, Serves, HadTurn, Apply;
      if TimesTaken(t, steps[..|steps| - 1], mine, rank) == 1 {
        TurnStays(u, s, mine, theirs, other, rank);
        if s.ClaimStep? { NotTwice(u, s, mine, theirs, other, rank); }
      } else if TakesFrom(u, s, mine, rank) {
        FirstTurn(u, s, mine, theirs, other, rank);
      }
    }
  }

  lemma {:induction false} FirstTurn(t: Table, s: Step, mine: Option<TenantId>, theirs: Option<TenantId>, other: JobId,
      rank: nat)
    requires Orderly(t, s, other, theirs, rank) && TakesFrom(t, s, mine, rank)
    ensures HadTurn(Apply(t, s), mine, theirs)
  {
    TakenRuns(t, s, mine, rank);
  }

  // ---------- all the others together ----------

  /** The tenants that have a job. */
  function TenantsOf(jobs: map<JobId, Job>): set<Option<TenantId>> { set id | id in jobs :: jobs[id].tenant }

  /** The step claims a job of any tenant but this one, at that priority or a worse one. */
  predicate TakesFromOthers(t: Table, s: Step, theirs: Option<TenantId>, rank: nat) {
    s.ClaimStep? && s.choice.Some? && s.choice.value in t.jobs
    && t.jobs[s.choice.value].tenant != theirs && Rank(t.jobs[s.choice.value].priority) >= rank
  }

  function TimesOthersTaken(t: Table, steps: seq<Step>, theirs: Option<TenantId>, rank: nat): nat {
    if |steps| == 0 then 0
    else
      TimesOthersTaken(t, steps[..|steps| - 1], theirs, rank)
      + if TakesFromOthers(Run(t, steps[..|steps| - 1]), steps[|steps| - 1], theirs, rank) then 1 else 0
  }

  /** The other tenants that have been taken from. */
  function Taken(t: Table, steps: seq<Step>, theirs: Option<TenantId>, rank: nat): set<Option<TenantId>> {
    if |steps| == 0 then {}
    else
      var u, s := Run(t, steps[..|steps| - 1]), steps[|steps| - 1];
      Taken(t, steps[..|steps| - 1], theirs, rank)
      + if TakesFromOthers(u, s, theirs, rank) then {u.jobs[s.choice.value].tenant} else {}
  }

  lemma {:induction false} TakenWasTaken(t: Table, steps: seq<Step>, mine: Option<TenantId>, theirs: Option<TenantId>,
      rank: nat)
    requires mine in Taken(t, steps, theirs, rank)
    ensures mine != theirs && TimesTaken(t, steps, mine, rank) >= 1
  {
    hide Run;
    var before := steps[..|steps| - 1];
    if mine in Taken(t, before, theirs, rank) { TakenWasTaken(t, before, mine, theirs, rank); }
  }

  lemma {:induction false} StepTenantStays(t: Table, s: Step, id: JobId)
    requires Enabled(t, s) && id in t.jobs
    ensures id in Apply(t, s).jobs && Apply(t, s).jobs[id].tenant == t.jobs[id].tenant
  {
    match s
    case ClaimStep(page, _, _, _, now, _, _) => RecoveryTenantStays(t, page, now, id);
    case RecoverStep(page, now) => RecoveryTenantStays(t, page, now, id);
    case _ =>
  }

  lemma {:induction false} RecoveryTenantStays(t: Table, page: seq<JobId>, now: int, id: JobId)
    requires id in t.jobs
    ensures id in RecoverAll(t, page, now).jobs && RecoverAll(t, page, now).jobs[id].tenant == t.jobs[id].tenant
  {
    if |page| > 0 { RecoveryTenantStays(t, page[..|page| - 1], now, id); }
  }

  lemma {:induction false} TakenArePresent(t: Table, steps: seq<Step>, theirs: Option<TenantId>, rank: nat)
    requires ValidRun(t, steps)
    ensures Taken(t, steps, theirs, rank) <= TenantsOf(Run(t, steps).jobs) - {theirs}
  {
    if |steps| > 0 {
      var u, s := Run(t, steps[..|steps| - 1]), steps[|steps| - 1];
      TakenArePresent(t, steps[..|steps| - 1], theirs, rank);
      hide Enabled, Apply;
      forall id | id in u.jobs ensures u.jobs[id].tenant in TenantsOf(Apply(u, s).jobs) { StepTenantStays(u, s, id); }
    }
  }

  /** Each of them was taken from once, so claims and tenants taken from are as many. */
  lemma {:induction false} TakenOnceEach(t: Table, steps: seq<Step>, theirs: Option<TenantId>, other: JobId, rank: nat)
    requires ValidRun(t, steps) && OrderlyRun(t, steps, other, theirs, rank) && NeverServes(t, steps, theirs)
    ensures TimesOthersTaken(t, steps, theirs, rank) == |Taken(t, steps, theirs, rank)|
  {
    if |steps| > 0 {
      var before, s := steps[..|steps| - 1], steps[|steps| - 1];
      var u := Run(t, before);
      TakenOnceEach(t, before, theirs, other, rank);
      if TakesFromOthers(u, s, theirs, rank) {
        var mine := u.jobs[s.choice.value].tenant;
        ClaimedAtMostOnce(t, steps, mine, theirs, other, rank);
        if mine in Taken(t, before, theirs, rank) { TakenWasTaken(t, before, mine, theirs, rank); }
      }
    }
  }

  /** How long a tenant waits, all the others together. With one worker whose jobs succeed at
      increasing times, while a job of the tenant is due and admitted at every claim, and nothing of
      it completes, the claims from other tenants at its priority or a worse one are no more than
      the other tenants there are. */
  lemma {:induction false} ClaimsBeforeTurn(t: Table, steps: seq<Step>, theirs: Option<TenantId>, other: JobId,
      rank: nat)
    requires ValidRun(t, steps) && OrderlyRun(t, steps, other, theirs, rank) && NeverServes(t, steps, theirs)
    ensures TimesOthersTaken(t, steps, theirs, rank) <= |TenantsOf(Run(t, steps).jobs) - {theirs}|
  {
    TakenOnceEach(t, steps, theirs, other, rank);
    TakenArePresent(t, steps, theirs, rank);
    NoMore(Taken(t, steps, theirs, rank), TenantsOf(Run(t, steps).jobs) - {theirs});
  }

  lemma {:induction false} NoMore<T>(a: set<T>, b: set<T>)
    requires a <= b
    ensures |a| <= |b|
  {
    assert b == a + (b - a);
  }

  // ---------- the order in the fields of the rows ----------

  /** The whole order: the job taken is of no worse priority than any other claimable one; within the
      priority its tenant was served no later, or never; then it became available no later, and of
      those it was created first. */
  lemma {:induction false} ClaimedInOrder(jobs: map<JobId, Job>, choice: Option<JobId>, other: JobId, now: int,
      priorities: set<Priority>, kinds: set<JobType>)
    requires MayChoose(jobs, choice, now, priorities, kinds)
    requires other in jobs && Claimable(jobs[other], now, priorities, kinds)
    ensures choice.Some? && choice.value in jobs
    ensures var mine, theirs := jobs[choice.value], jobs[other];
            && NoWorse(mine.priority, theirs.priority)
            && (mine.priority == theirs.priority ==>
                  && LastServed(jobs, mine.tenant) <= LastServed(jobs, theirs.tenant)
                  && (LastServed(jobs, mine.tenant) == LastServed(jobs, theirs.tenant) ==>
                        && mine.availableAt <= theirs.availableAt
                        && (mine.availableAt == theirs.availableAt ==> mine.createdAt <= theirs.createdAt)))
  {
    hide LastServed;
    assert NotAfter(KeyOf(jobs, jobs[choice.value]), KeyOf(jobs, jobs[other]));
  }

  /** Jobs of one tenant, or of tenants never served, are taken oldest first. */
  lemma {:induction false} OldestFirst(jobs: map<JobId, Job>, choice: Option<JobId>, other: JobId, now: int,
      priorities: set<Priority>, kinds: set<JobType>)
    requires MayChoose(jobs, choice, now, priorities, kinds)
    requires other in jobs && Claimable(jobs[other], now, priorities, kinds)
    requires choice.Some? && choice.value in jobs ==>
        jobs[choice.value].priority == jobs[other].priority
        && (jobs[choice.value].tenant == jobs[other].tenant
            || (forall id :: id in jobs && jobs[id].status == Succeeded ==>
                  jobs[id].tenant != jobs[other].tenant && jobs[id].tenant != jobs[choice.value].tenant))
    ensures choice.Some? && choice.value in jobs
    ensures jobs[choice.value].availableAt <= jobs[other].availableAt
  {
    ClaimedInOrder(jobs, choice, other, now, priorities, kinds);
    var mine, theirs := jobs[choice.value].tenant, jobs[other].tenant;
    if mine != theirs { assert ServedJobs(jobs, mine) == {} && ServedJobs(jobs, theirs) == {}; }
  }
}
