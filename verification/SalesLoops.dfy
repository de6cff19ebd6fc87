/** The two import loops, each turn of which is a run of the atomic steps of SalesImport. */
module SalesLoops {
  import opened Wrappers
  import opened SalesImport

  datatype ProviderRun = ProviderRun(tenant: string, provider: Provider, environment: Environment,
      integration: IntegrationId)

  /** A movement of the run; `saleId` is None where the external id or the normalized sale is missing. */
  datatype Sale = Sale(movement: MovementId, status: MovementStatus, saleId: Option<string>)

  datatype Counts = Counts(imported: nat, failed: nat, duplicate: nat, enriched: nat, created: nat, reconciled: nat)

  /** What the world answers: the order each import would create (absent where it fails), and the
      operational orders known by external id. */
  datatype World = World(outcomes: map<MovementId, OrderId>, links: map<string, OrderId>)

  function KeyFor(run: ProviderRun, saleId: string): IdentityKey {
    IdentityKey(run.tenant, run.provider, run.environment, saleId)
  }

  datatype Kind =
    | Invalid
    | Enriched(order: OrderId)
    | Reconciled
    | AlreadyClaimed
    | Created(order: OrderId)
    | ImportFailed

  /** Which way one movement goes. */
  function Classify(s: State, run: ProviderRun, sale: Sale, world: World): Kind {
    if sale.saleId.None? then Invalid
    else if run.provider == Ifood && sale.saleId.value in world.links then Enriched(world.links[sale.saleId.value])
    else if sale.status == Duplicate then Reconciled
    else if KeyFor(run, sale.saleId.value) in s.identities then AlreadyClaimed
    else if sale.movement in world.outcomes && world.outcomes[sale.movement] !in s.orders then
      Created(world.outcomes[sale.movement])
    else ImportFailed
  }

  function Effect(s: State, run: ProviderRun, sale: Sale, kind: Kind): State
    requires kind.Enriched? || kind.Created? ==> sale.saleId.Some?
  {
    match kind
    case Invalid => s
    case Reconciled => s
    case Enriched(order) =>
      s.(identities := AttachOrder(s.identities, KeyFor(run, sale.saleId.value), run.integration, order),
         movements := s.movements[sale.movement := Imported(order)])
    case AlreadyClaimed => s.(movements := s.movements[sale.movement := Duplicate])
    case Created(order) =>
      s.(identities := s.identities[KeyFor(run, sale.saleId.value) := Identity(Some(run.integration), Some(order))],
         orders := s.orders[order := KeyFor(run, sale.saleId.value)],
         movements := s.movements[sale.movement := Imported(order)])
    case ImportFailed => s.(movements := s.movements[sale.movement := Failed])
  }

  function Count(c: Counts, kind: Kind): Counts {
    match kind
    case Invalid => c.(failed := c.failed + 1)
    case Reconciled => c
    case Enriched(_) => c.(enriched := c.enriched + 1, reconciled := c.reconciled + 1)
    case AlreadyClaimed => c.(duplicate := c.duplicate + 1)
    case Created(_) => c.(imported := c.imported + 1, created := c.created + 1)
    case ImportFailed => c.(failed := c.failed + 1)
  }

  /** The first `n` movements, one after the other. */
  function ConfirmFirst(s: State, c: Counts, run: ProviderRun, sales: seq<Sale>, world: World, n: nat): (State, Counts)
    requires n <= |sales|
  {
    if n == 0 then (s, c)
    else
      var (t, d) := ConfirmFirst(s, c, run, sales, world, n - 1);
      var kind := Classify(t, run, sales[n - 1], world);
      (Effect(t, run, sales[n - 1], kind), Count(d, kind))
  }

  /** A row of the CSV file. */
  datatype CsvRow = CsvRow(saleId: string, importKey: string)

  datatype CsvProgress = CsvProgress(state: State, existing: set<string>, imported: nat, skipped: nat, thrown: bool)

  function ImportRow(p: CsvProgress, tenant: string, row: CsvRow, outcome: Option<OrderId>): CsvProgress {
    if p.thrown then p
    else if row.importKey in p.existing || CsvKey(tenant, row.saleId) in p.state.identities then
      p.(skipped := p.skipped + 1)
    else if outcome.Some? && outcome.value !in p.state.orders then
      var linked := p.state.identities[CsvKey(tenant, row.saleId) := Identity(None, outcome)];
      var orders := p.state.orders[outcome.value := CsvKey(tenant, row.saleId)];
      p.(state := p.state.(identities := linked, orders := orders),
         existing := p.existing + {row.importKey},
         imported := p.imported + 1)
    else
      var claimed := p.state.identities[CsvKey(tenant, row.saleId) := Identity(None, None)];
      p.(state := p.state.(identities := ReleaseCsv(claimed, CsvKey(tenant, row.saleId))), thrown := true)
  }

  function ImportFirst(p: CsvProgress, tenant: string, rows: seq<CsvRow>, outcomes: seq<Option<OrderId>>,
      n: nat): CsvProgress
    requires n <= |rows| == |outcomes|
  {
    if n == 0 then p else ImportRow(ImportFirst(p, tenant, rows, outcomes, n - 1), tenant, rows[n - 1], outcomes[n - 1])
  }

  // ---------- the loops on the tables ----------

  // The confirmation of a provider run and the PAGBANK CSV import: each does what a fold over its input
  // does.

  class SalesTables {
    var identities: map<IdentityKey, Identity>
    var orders: map<OrderId, IdentityKey>
    var movements: map<MovementId, MovementStatus>
    /** The workers of other processes; these loops neither see nor change them. */
    ghost var others: map<WorkerId, Work>

    ghost function Tables(): State reads this { State(identities, orders, movements, others) }

    method Claim(key: IdentityKey, integration: Option<IntegrationId>) returns (claimed: bool)
      modifies this`identities
      ensures claimed == (key !in old(identities))
      ensures identities == if claimed then old(identities)[key := Identity(integration, None)] else old(identities)
    {
      claimed := key !in identities;
      if claimed { identities := identities[key := Identity(integration, None)]; }
    }

    method Release(key: IdentityKey, integration: IntegrationId)
      modifies this`identities
      ensures identities == ReleaseApi(old(identities), key, integration)
      ensures forall k :: k in identities <==>
        (k in old(identities) && !(k == key && old(identities)[k].integration == Some(integration)
                                   && old(identities)[k].orderId == None))
      ensures forall k :: k in identities ==> identities[k] == old(identities)[k]
    {
      if key in identities && identities[key] == Identity(Some(integration), None) { identities := identities - {key}; }
    }

    method ReleaseCsvRow(key: IdentityKey)
      modifies this`identities
      ensures identities == ReleaseCsv(old(identities), key)
      ensures forall k :: k in identities <==>
        (k in old(identities) && !(k.tenant == key.tenant && k.provider == key.provider && k.saleId == key.saleId
                                   && old(identities)[k].orderId == None))
      ensures forall k :: k in identities ==> identities[k] == old(identities)[k]
    {
      identities := map k | k in identities && !CsvReleaseReaches(identities, key, k) :: identities[k];
    }

    /** The transaction that creates the order, links it, and marks the movement. */
    method CreateOrder(key: IdentityKey, order: OrderId, movement: Option<MovementId>) returns (ok: bool)
      modifies this`identities, this`orders, this`movements
      ensures ok == (key in old(identities) && order !in old(orders))
      ensures !ok ==> identities == old(identities) && orders == old(orders) && movements == old(movements)
      ensures ok ==> identities == Link(old(identities), key, order) && orders == old(orders)[order := key]
      ensures ok ==> key in identities && identities[key] == Identity(old(identities)[key].integration, Some(order))
      ensures ok ==> movements == if movement.Some? then old(movements)[movement.value := Imported(order)]
          else old(movements)
    {
      ok := key in identities && order !in orders;
      if ok {
        orders := orders[order := key];
        identities := identities[key := identities[key].(orderId := Some(order))];
        if movement.Some? { movements := movements[movement.value := Imported(order)]; }
      }
    }

    method ConfirmOne(run: ProviderRun, sale: Sale, world: World) returns (kind: Kind)
      modifies this`identities, this`orders, this`movements
      ensures kind == Classify(old(Tables()), run, sale, world)
      ensures Tables() == Effect(old(Tables()), run, sale, kind)
    {
      if sale.saleId.None? { return Invalid; }
      var key := KeyFor(run, sale.saleId.value);
      if run.provider == Ifood && sale.saleId.value in world.links {
        var order := world.links[sale.saleId.value];
        identities := identities[key := Identity(Some(run.integration), Some(order))];
        movements := movements[sale.movement := Imported(order)];
        return Enriched(order);
      }
      if sale.status == Duplicate { return Reconciled; }
      var claimed := Claim(key, Some(run.integration));
      if !claimed {
        movements := movements[sale.movement := Duplicate];
        return AlreadyClaimed;
      }
      var ok := false;
      if sale.movement in world.outcomes {
        ok := CreateOrder(key, world.outcomes[sale.movement], Some(sale.movement));
      }
      if ok { return Created(world.outcomes[sale.movement]); }
      Release(key, run.integration);
      movements := movements[sale.movement := Failed];
      return ImportFailed;
    }

    /** `before` are the counts of the run so far, with `failed` starting again from zero. */
    method Confirm(run: ProviderRun, sales: seq<Sale>, world: World, before: Counts)
      returns (counts: Counts, completed: bool)
      requires before.failed == 0
      modifies this`identities, this`orders, this`movements
      ensures (Tables(), counts) == ConfirmFirst(old(Tables()), before, run, sales, world, |sales|)
      ensures completed == (counts.failed == 0)
    {
      counts := before;
      for i := 0 to |sales|
        invariant (Tables(), counts) == ConfirmFirst(old(Tables()), before, run, sales, world, i)
      {
        var kind := ConfirmOne(run, sales[i], world);
        counts := Count(counts, kind);
      }
      completed := counts.failed == 0;
    }

    method ImportCsv(tenant: string, rows: seq<CsvRow>, outcomes: seq<Option<OrderId>>, found: set<string>)
      returns (imported: nat, skipped: nat, thrown: bool, existingKeys: set<string>)
      requires |rows| == |outcomes|
      modifies this`identities, this`orders, this`movements
      ensures CsvProgress(Tables(), existingKeys, imported, skipped, thrown)
           == ImportFirst(CsvProgress(old(Tables()), found, 0, 0, false), tenant, rows, outcomes, |rows|)
    {
      hide ReleaseCsv, CsvReleaseReaches;
      existingKeys := found;
      imported, skipped, thrown := 0, 0, false;
      var i := 0;
      while i < |rows| && !thrown
        invariant 0 <= i <= |rows|
        invariant CsvProgress(Tables(), existingKeys, imported, skipped, thrown)
               == ImportFirst(CsvProgress(old(Tables()), found, 0, 0, false), tenant, rows, outcomes, i)
      {
        var row := rows[i];
        var key := CsvKey(tenant, row.saleId);
        if row.importKey in existingKeys {
          skipped := skipped + 1;
        } else {
          var claimed := Claim(key, None);
          if !claimed {
            skipped := skipped + 1;
          } else {
            var ok := false;
            if outcomes[i].Some? { ok := CreateOrder(key, outcomes[i].value, None); }
            if ok {
              existingKeys := existingKeys + {row.importKey};
              imported := imported + 1;
            } else {
              ReleaseCsvRow(key);
              thrown := true;
            }
          }
        }
        i := i + 1;
      }
      if thrown { ThrownStays(CsvProgress(old(Tables()), found, 0, 0, false), tenant, rows, outcomes, i, |rows|); }
    }
  }

  lemma {:induction false} ThrownStays(p: CsvProgress, tenant: string, rows: seq<CsvRow>,
      outcomes: seq<Option<OrderId>>, i: nat, n: nat)
    requires i <= n <= |rows| == |outcomes| && ImportFirst(p, tenant, rows, outcomes, i).thrown
    ensures ImportFirst(p, tenant, rows, outcomes, n) == ImportFirst(p, tenant, rows, outcomes, i)
  {
    if i < n { ThrownStays(p, tenant, rows, outcomes, i, n - 1); }
  }

  // ---------- accounting ----------

  function Skips(s: State, c: Counts, run: ProviderRun, sales: seq<Sale>, world: World, n: nat): nat
    requires n <= |sales|
  {
    if n == 0 then 0
    else
      Skips(s, c, run, sales, world, n - 1)
      + if Classify(ConfirmFirst(s, c, run, sales, world, n - 1).0, run, sales[n - 1], world).Reconciled? then 1 else 0
  }

  /** Every movement is counted once: as imported, failed, duplicate or enriched, or else it was a
      known duplicate. Each import is a creation and adds one order; each enrichment a reconciliation. */
  lemma {:induction false} CountsAddUp(s: State, c: Counts, run: ProviderRun, sales: seq<Sale>, world: World, n: nat)
    requires n <= |sales|
    ensures var (t, d) := ConfirmFirst(s, c, run, sales, world, n);
            && (d.imported - c.imported) + (d.failed - c.failed) + (d.duplicate - c.duplicate)
              + (d.enriched - c.enriched)
               + Skips(s, c, run, sales, world, n) == n
            && d.imported - c.imported == d.created - c.created == |t.orders| - |s.orders|
            && d.enriched - c.enriched == d.reconciled - c.reconciled
  {
    hide Classify, Effect, Count;
    if n > 0 {
      CountsAddUp(s, c, run, sales, world, n - 1);
      var (t, d) := ConfirmFirst(s, c, run, sales, world, n - 1);
      OneCounted(t, d, run, sales[n - 1], world);
    }
  }

  lemma {:induction false} OneCounted(s: State, c: Counts, run: ProviderRun, sale: Sale, world: World)
    ensures var kind := Classify(s, run, sale, world);
            var d := Count(c, kind);
            && (kind.Enriched? || kind.Created? ==> sale.saleId.Some?)
            && d.imported + d.failed + d.duplicate + d.enriched + (if kind.Reconciled? then 1 else 0)
               == c.imported + c.failed + c.duplicate + c.enriched + 1
            && d.imported - c.imported == d.created - c.created == |Effect(s, run, sale, kind).orders| - |s.orders|
            && d.enriched - c.enriched == d.reconciled - c.reconciled
  {
  }

  // ---------- the loops are runs of the steps ----------

  lemma {:induction false} EnrichedSteps(s: State, w: WorkerId, key: IdentityKey, i: IntegrationId, m: MovementId,
      order: OrderId, k: IdentityKey)
    returns (steps: seq<Step>)
    requires w !in s.workers && key.provider == Ifood
    ensures ValidRun(s, steps) && NoHits(s, steps, k)
    ensures Run(s, steps) == s.(identities := AttachOrder(s.identities, key, i, order),
        movements := s.movements[m := Imported(order)])
  {
    var s1 := Do(s, Attach(w, key, i, m, order));
    assert s1.workers - {w} == s.workers;
    First(s1, Mark(w), [], k);
    steps := [Mark(w)] + [];
    First(s, Attach(w, key, i, m, order), steps, k);
    steps := [Attach(w, key, i, m, order)] + steps;
  }

  lemma {:induction false} DuplicateSteps(s: State, w: WorkerId, key: IdentityKey, i: IntegrationId, m: MovementId,
      k: IdentityKey)
    returns (steps: seq<Step>)
    requires w !in s.workers && key in s.identities
    ensures ValidRun(s, steps) && NoHits(s, steps, k)
    ensures Run(s, steps) == s.(movements := s.movements[m := Duplicate])
  {
    var s1 := Do(s, ApiClaim(w, key, i, m));
    assert s1.workers - {w} == s.workers;
    First(s1, Mark(w), [], k);
    steps := [Mark(w)] + [];
    First(s, ApiClaim(w, key, i, m), steps, k);
    steps := [ApiClaim(w, key, i, m)] + steps;
  }

  lemma {:induction false} CreatedSteps(s: State, w: WorkerId, key: IdentityKey, i: IntegrationId, m: MovementId,
      order: OrderId, k: IdentityKey)
    returns (steps: seq<Step>)
    requires w !in s.workers && key !in s.identities && order !in s.orders
    ensures ValidRun(s, steps) && NoHits(s, steps, k)
    ensures Run(s, steps) == s.(identities := s.identities[key := Identity(Some(i), Some(order))],
                                orders := s.orders[order := key], movements := s.movements[m := Imported(order)])
  {
    var s1 := Do(s, ApiClaim(w, key, i, m));
    assert s1.workers - {w} == s.workers;
    First(s1, Commit(w, order), [], k);
    steps := [Commit(w, order)] + [];
    First(s, ApiClaim(w, key, i, m), steps, k);
    steps := [ApiClaim(w, key, i, m)] + steps;
  }

  lemma {:induction false} FailureSteps(s: State, w: WorkerId, key: IdentityKey, i: IntegrationId, m: MovementId,
      k: IdentityKey)
    returns (steps: seq<Step>)
    requires w !in s.workers && key !in s.identities
    ensures ValidRun(s, steps) && NoHits(s, steps, k)
    ensures Run(s, steps) == s.(movements := s.movements[m := Failed])
  {
    var s1 := Do(s, ApiClaim(w, key, i, m));
    steps := FailedSteps(s, s1, w, key, i, m, k);
    First(s, ApiClaim(w, key, i, m), steps, k);
    steps := [ApiClaim(w, key, i, m)] + steps;
  }

  /** One movement of the loop is a run of atomic steps by a worker of its own, none of which is a
      CSV release; the other workers are left alone. */
  lemma {:induction false} MovementIsRun(s: State, w: WorkerId, run: ProviderRun, sale: Sale, world: World,
      k: IdentityKey)
    returns (steps: seq<Step>)
    requires w !in s.workers
    ensures ValidRun(s, steps) && NoHits(s, steps, k)
    ensures Run(s, steps) == Effect(s, run, sale, Classify(s, run, sale, world))
  {
    var kind := Classify(s, run, sale, world);
    steps := [];
    assert ValidRun(s, []) && NoHits(s, [], k) && Run(s, []) == s;
    if kind.Invalid? || kind.Reconciled? { return; }
    var key, i, m := KeyFor(run, sale.saleId.value), run.integration, sale.movement;
    hide ValidRun, NoHits, Run;
    match kind {
      case Enriched(order) => steps := EnrichedSteps(s, w, key, i, m, order, k);
      case AlreadyClaimed => steps := DuplicateSteps(s, w, key, i, m, k);
      case Created(order) => steps := CreatedSteps(s, w, key, i, m, order, k);
      case ImportFailed => steps := FailureSteps(s, w, key, i, m, k);
    }
  }

  lemma {:induction false} FailedSteps(s: State, s1: State, w: WorkerId, key: IdentityKey, i: IntegrationId,
      m: MovementId, k: IdentityKey)
    returns (steps: seq<Step>)
    requires w !in s.workers && key !in s.identities
    requires s1 == s.(identities := s.identities[key := Identity(Some(i), None)],
        workers := s.workers[w := Claimed(key, Api(i, m))])
    ensures ValidRun(s1, steps) && NoHits(s1, steps, k)
    ensures Run(s1, steps) == s.(movements := s.movements[m := Failed])
  {
    var s2 := Do(s1, Abort(w));
    var s3 := Do(s2, Release(w));
    assert s3.identities == s.identities;
    assert s3.workers - {w} == s.workers;
    First(s3, Mark(w), [], k);
    steps := [Mark(w)] + [];
    First(s2, Release(w), steps, k);
    steps := [Release(w)] + steps;
    First(s1, Abort(w), steps, k);
    steps := [Abort(w)] + steps;
  }

  /** So a whole confirmation, started in any state the protocol can be in, creates at most one
      order per sale, and none for a sale that is already linked. */
  lemma {:induction false} ConfirmAtMostOnce(s: State, w: WorkerId, c: Counts, run: ProviderRun, sales: seq<Sale>,
      world: World, n: nat, k: IdentityKey)
    requires n <= |sales| && w !in s.workers && KeyOk(s, k)
    ensures var t := ConfirmFirst(s, c, run, sales, world, n).0;
            && t.workers == s.workers && KeyOk(t, k)
            && (k in s.identities ==> k in t.identities && forall o :: o in t.orders && t.orders[o] == k ==>
                   o in s.orders)
  {
    hide KeyOk, Effect, ValidRun, NoHits, Run;
    if n > 0 {
      ConfirmAtMostOnce(s, w, c, run, sales, world, n - 1, k);
      var t := ConfirmFirst(s, c, run, sales, world, n - 1).0;
      var steps := MovementIsRun(t, w, run, sales[n - 1], world, k);
      AtMostOnce(t, steps, k);
      OneMovement(t, run, sales[n - 1], world, k);
    }
  }

  lemma {:induction false} OneMovement(s: State, run: ProviderRun, sale: Sale, world: World, k: IdentityKey)
    ensures var t := Effect(s, run, sale, Classify(s, run, sale, world));
            && t.workers == s.workers
            && (k in s.identities ==> k in t.identities && forall o :: o in t.orders && t.orders[o] == k ==>
                   o in s.orders && s.orders[o] == k)
  {
  }

  /** Confirming the same run again, whatever became of its movements, creates no order for a sale
      that the first time imported or found claimed. */
  lemma {:induction false} ConfirmAgain(s: State, w: WorkerId, c: Counts, run: ProviderRun, sales: seq<Sale>,
      world: World,
                                        again: seq<Sale>, later: World, k: IdentityKey)
    requires w !in s.workers && KeyOk(s, k)
    requires k in ConfirmFirst(s, c, run, sales, world, |sales|).0.identities
    ensures var t := ConfirmFirst(s, c, run, sales, world, |sales|).0;
            var u := ConfirmFirst(t, c, run, again, later, |again|).0;
            forall o :: o in u.orders && u.orders[o] == k ==> o in t.orders
  {
    ConfirmAtMostOnce(s, w, c, run, sales, world, |sales|, k);
    var t := ConfirmFirst(s, c, run, sales, world, |sales|).0;
    ConfirmAtMostOnce(t, w, c, run, again, later, |again|, k);
  }

  /** The CSV import accounts for every row it got to, and stops at the first failure. */
  lemma {:induction false} CsvCountsAddUp(p: CsvProgress, tenant: string, rows: seq<CsvRow>,
      outcomes: seq<Option<OrderId>>, n: nat)
    requires n <= |rows| == |outcomes| && !p.thrown
    ensures var q := ImportFirst(p, tenant, rows, outcomes, n);
            && (!q.thrown ==> (q.imported - p.imported) + (q.skipped - p.skipped) == n)
            && |q.state.orders| - |p.state.orders| == q.imported - p.imported
  {
    if n > 0 { CsvCountsAddUp(p, tenant, rows, outcomes, n - 1); }
  }

  /** One row of the CSV import is a run of atomic steps by a worker of its own. */
  lemma {:induction false} RowIsRun(p: CsvProgress, w: WorkerId, tenant: string, row: CsvRow,
      outcome: Option<OrderId>, k: IdentityKey)
    returns (steps: seq<Step>)
    requires w !in p.state.workers
    ensures ValidRun(p.state, steps) && Run(p.state, steps) == ImportRow(p, tenant, row, outcome).state
  {
    var s := p.state;
    var key := CsvKey(tenant, row.saleId);
    if p.thrown || row.importKey in p.existing || key in s.identities { return []; }
    if outcome.Some? && outcome.value !in s.orders {
      steps := CsvCreatedSteps(s, w, tenant, row.saleId, outcome.value, k);
    } else {
      steps := CsvFailedSteps(s, w, tenant, row.saleId, k);
    }
  }

  lemma {:induction false} CsvCreatedSteps(s: State, w: WorkerId, tenant: string, saleId: string, order: OrderId,
      k: IdentityKey)
    returns (steps: seq<Step>)
    requires w !in s.workers && CsvKey(tenant, saleId) !in s.identities && order !in s.orders
    ensures ValidRun(s, steps)
    ensures Run(s, steps) == s.(identities := s.identities[CsvKey(tenant, saleId) := Identity(None, Some(order))],
                                orders := s.orders[order := CsvKey(tenant, saleId)])
  {
    var s1 := Do(s, CsvClaim(w, tenant, saleId));
    assert s1.workers - {w} == s.workers;
    First(s1, Commit(w, order), [], k);
    steps := [Commit(w, order)] + [];
    First(s, CsvClaim(w, tenant, saleId), steps, k);
    steps := [CsvClaim(w, tenant, saleId)] + steps;
  }

  lemma {:induction false} CsvFailedSteps(s: State, w: WorkerId, tenant: string, saleId: string, k: IdentityKey)
    returns (steps: seq<Step>)
    requires w !in s.workers && CsvKey(tenant, saleId) !in s.identities
    ensures ValidRun(s, steps)
    ensures var key := CsvKey(tenant, saleId);
            Run(s, steps) == s.(identities := ReleaseCsv(s.identities[key := Identity(None, None)], key))
  {
    var s1 := Do(s, CsvClaim(w, tenant, saleId));
    var s2 := Do(s1, Abort(w));
    assert s2.workers - {w} == s.workers;
    First(s2, Release(w), [], k);
    steps := [Release(w)] + [];
    First(s1, Abort(w), steps, k);
    steps := [Abort(w)] + steps;
    First(s, CsvClaim(w, tenant, saleId), steps, k);
    steps := [CsvClaim(w, tenant, saleId)] + steps;
  }

  // ---------- a whole CSV import ----------

  lemma {:induction false} OneRow(p: CsvProgress, tenant: string, row: CsvRow, outcome: Option<OrderId>, k: IdentityKey)
    requires k.environment == Production || k.provider != PagBank
    ensures var q := ImportRow(p, tenant, row, outcome);
            && q.state.workers == p.state.workers
            && (k in p.state.identities ==> k in q.state.identities && forall o ::
                   o in q.state.orders && q.state.orders[o] == k ==> o in p.state.orders && p.state.orders[o] == k)
  {
  }

  /** A whole CSV import, started in any state the protocol can be in, keeps every sale outside the
      test environment in order: it creates at most one order for it, and none if it was claimed. */
  lemma {:induction false} CsvAtMostOnce(p: CsvProgress, w: WorkerId, tenant: string, rows: seq<CsvRow>,
      outcomes: seq<Option<OrderId>>, n: nat, k: IdentityKey)
    requires n <= |rows| == |outcomes| && w !in p.state.workers && CsvKeys(p.state) && KeyOk(p.state, k)
    requires k.environment == Production || k.provider != PagBank
    ensures var t := ImportFirst(p, tenant, rows, outcomes, n).state;
            && t.workers == p.state.workers && CsvKeys(t) && KeyOk(t, k) && AtMostOneOrder(t, k)
            && (k in p.state.identities ==> k in t.identities && forall o :: o in t.orders && t.orders[o] == k ==>
                   o in p.state.orders)
  {
    hide ImportRow, ValidRun, NoHits, Run;
    if n > 0 {
      CsvAtMostOnce(p, w, tenant, rows, outcomes, n - 1, k);
      var q := ImportFirst(p, tenant, rows, outcomes, n - 1);
      var steps := RowIsRun(q, w, tenant, rows[n - 1], outcomes[n - 1], k);
      hide KeyOk;
      AlwaysAtMostOnce(q.state, steps, k);
      AtMostOnce(q.state, steps, k);
      OneRow(q, tenant, rows[n - 1], outcomes[n - 1], k);
    }
  }

  /** The row would be skipped. */
  predicate Known(p: CsvProgress, tenant: string, row: CsvRow) {
    row.importKey in p.existing || CsvKey(tenant, row.saleId) in p.state.identities
  }

  lemma {:induction false} RowsBecomeKnown(p: CsvProgress, tenant: string, rows: seq<CsvRow>,
      outcomes: seq<Option<OrderId>>, n: nat)
    requires n <= |rows| == |outcomes| && !ImportFirst(p, tenant, rows, outcomes, n).thrown
    ensures forall i :: 0 <= i < n ==> Known(ImportFirst(p, tenant, rows, outcomes, n), tenant, rows[i])
  {
    if n > 0 { RowsBecomeKnown(p, tenant, rows, outcomes, n - 1); }
  }

  lemma {:induction false} KnownRowsAreSkipped(p: CsvProgress, tenant: string, rows: seq<CsvRow>,
      outcomes: seq<Option<OrderId>>, n: nat)
    requires n <= |rows| == |outcomes| && !p.thrown && forall i :: 0 <= i < n ==> Known(p, tenant, rows[i])
    ensures ImportFirst(p, tenant, rows, outcomes, n) == p.(skipped := p.skipped + n)
  {
    if n > 0 {
      KnownRowsAreSkipped(p, tenant, rows, outcomes, n - 1);
      assert Known(p, tenant, rows[n - 1]);
    }
  }

  /** Importing the same file again, after an import that did not throw, skips every row and changes
      nothing, whatever imports would now come to; `found` are the keys that the orders now show. */
  lemma {:induction false} CsvAgain(p: CsvProgress, tenant: string, rows: seq<CsvRow>, outcomes: seq<Option<OrderId>>,
      later: seq<Option<OrderId>>, found: set<string>)
    requires |rows| == |outcomes| == |later| && !ImportFirst(p, tenant, rows, outcomes, |rows|).thrown
    requires ImportFirst(p, tenant, rows, outcomes, |rows|).existing <= found
    ensures var s := ImportFirst(p, tenant, rows, outcomes, |rows|).state;
            ImportFirst(CsvProgress(s, found, 0, 0, false), tenant, rows, later, |rows|)
              == CsvProgress(s, found, 0, |rows|, false)
  {
    var s := ImportFirst(p, tenant, rows, outcomes, |rows|).state;
    RowsBecomeKnown(p, tenant, rows, outcomes, |rows|);
    forall i | 0 <= i < |rows| ensures Known(CsvProgress(s, found, 0, 0, false), tenant, rows[i]) {
      assert Known(ImportFirst(p, tenant, rows, outcomes, |rows|), tenant, rows[i]);
    }
    KnownRowsAreSkipped(CsvProgress(s, found, 0, 0, false), tenant, rows, later, |rows|);
  }

  // ---------- what is imported ----------

  /** The movement names a sale that is not attached to an operational order, is no known duplicate and
      is not claimed, and its import succeeds with a fresh order. */
  predicate Importable(s: State, run: ProviderRun, sale: Sale, world: World) {
    && sale.saleId.Some? && !(run.provider == Ifood && sale.saleId.value in world.links)
    && sale.status != Duplicate
    && IdentityKey(run.tenant, run.provider, run.environment, sale.saleId.value) !in s.identities
    && sale.movement in world.outcomes && world.outcomes[sale.movement] !in s.orders
  }

  /** The tables hold the sale's order, linked to the identity of the sale by this integration. */
  predicate Holds(t: State, run: ProviderRun, saleId: string, order: OrderId) {
    var key := IdentityKey(run.tenant, run.provider, run.environment, saleId);
    && order in t.orders && t.orders[order] == key
    && key in t.identities && t.identities[key] == Identity(Some(run.integration), Some(order))
  }

  /** Every turn, by what it finds: what becomes of the tables, and which one counter it moves. */
  lemma {:induction false} TurnSays(s: State, c: Counts, run: ProviderRun, sale: Sale, world: World)
    ensures var kind := Classify(s, run, sale, world);
            var t, d := Effect(s, run, sale, kind), Count(c, kind);
            if sale.saleId.None? then t == s && d == c.(failed := c.failed + 1)
            else
              var x, m := sale.saleId.value, sale.movement;
              var key := IdentityKey(run.tenant, run.provider, run.environment, x);
              if run.provider == Ifood && x in world.links then
                && t.orders == s.orders && m in t.movements && t.movements[m] == Imported(world.links[x])
                && key in t.identities && t.identities[key] == Identity(Some(run.integration), Some(world.links[x]))
                && d == c.(enriched := c.enriched + 1, reconciled := c.reconciled + 1)
              else if sale.status == Duplicate then t == s && d == c
              else if key in s.identities then
                t == s.(movements := s.movements[m := Duplicate]) && d == c.(duplicate := c.duplicate + 1)
              else if Importable(s, run, sale, world) then
                && t.orders == s.orders[world.outcomes[m] := key] && Holds(t, run, x, world.outcomes[m])
                && m in t.movements && t.movements[m] == Imported(world.outcomes[m])
                && d == c.(imported := c.imported + 1, created := c.created + 1)
              else t == s.(movements := s.movements[m := MovementStatus.Failed]) && d == c.(failed := c.failed + 1)
  {
  }

  /** A later turn takes nothing back. */
  lemma {:induction false} TurnKeepsImport(s: State, run: ProviderRun, sale: Sale, world: World, saleId: string,
      order: OrderId)
    requires Holds(s, run, saleId, order) && !(run.provider == Ifood && saleId in world.links)
    ensures Holds(Effect(s, run, sale, Classify(s, run, sale, world)), run, saleId, order)
  {
  }

  lemma {:induction false} ImportStays(s: State, c: Counts, run: ProviderRun, sales: seq<Sale>, world: World, k: nat,
      n: nat)
    requires k < n <= |sales| && Importable(ConfirmFirst(s, c, run, sales, world, k).0, run, sales[k], world)
    ensures var t := ConfirmFirst(s, c, run, sales, world, n).0;
            var m := sales[k].movement;
            && Holds(t, run, sales[k].saleId.value, world.outcomes[m])
            && ((forall j :: k < j < n ==> sales[j].movement != m) ==>
                  m in t.movements && t.movements[m] == Imported(world.outcomes[m]))
    decreases n
  {
    var (t, d) := ConfirmFirst(s, c, run, sales, world, n - 1);
    TurnSays(t, d, run, sales[n - 1], world);
    if k < n - 1 {
      ImportStays(s, c, run, sales, world, k, n - 1);
      TurnKeepsImport(t, run, sales[n - 1], world, sales[k].saleId.value, world.outcomes[sales[k].movement]);
    }
  }

  /** The order was created for the movement `k`, when its turn came. */
  ghost predicate ImportedAt(s: State, c: Counts, run: ProviderRun, sales: seq<Sale>, world: World, k: nat,
      order: OrderId)
    requires k < |sales|
  {
    && Importable(ConfirmFirst(s, c, run, sales, world, k).0, run, sales[k], world)
    && world.outcomes[sales[k].movement] == order
  }

  /** Exactly what a confirmation imports: after any number of turns the orders are those there were and
      one for each movement that could be imported when its turn came, each under the key of its sale;
      its identity is linked to it, and its movement imported. Nothing else adds an order. */
  lemma {:induction false} ImportedIff(s: State, c: Counts, run: ProviderRun, sales: seq<Sale>, world: World, n: nat,
      order: OrderId)
    requires n <= |sales|
    ensures var t := ConfirmFirst(s, c, run, sales, world, n).0;
            && (order in t.orders
                <==> order in s.orders || exists k :: 0 <= k < n && ImportedAt(s, c, run, sales, world, k, order))
            && (order in s.orders ==> order in t.orders && t.orders[order] == s.orders[order])
            && (forall k :: 0 <= k < n && ImportedAt(s, c, run, sales, world, k, order) ==>
                  Holds(t, run, sales[k].saleId.value, order))
  {
    if n > 0 {
      ImportedIff(s, c, run, sales, world, n - 1, order);
      var (t, d) := ConfirmFirst(s, c, run, sales, world, n - 1);
      TurnSays(t, d, run, sales[n - 1], world);
      forall k | 0 <= k < n && ImportedAt(s, c, run, sales, world, k, order)
        ensures Holds(ConfirmFirst(s, c, run, sales, world, n).0, run, sales[k].saleId.value, order)
      {
        ImportStays(s, c, run, sales, world, k, n);
      }
      hide Importable, Effect, Classify;
      assert ImportedAt(s, c, run, sales, world, n - 1, order) <==>
          Importable(t, run, sales[n - 1], world) && world.outcomes[sales[n - 1].movement] == order;
    }
  }

  /** Every row of the CSV import, by what it finds. */
  lemma {:induction false} RowSays(p: CsvProgress, tenant: string, row: CsvRow, outcome: Option<OrderId>)
    requires !p.thrown
    ensures var q, key := ImportRow(p, tenant, row, outcome), IdentityKey(tenant, PagBank, Production, row.saleId);
            if row.importKey in p.existing || key in p.state.identities then q == p.(skipped := p.skipped + 1)
            else if outcome.Some? && outcome.value !in p.state.orders then
              && q.state.orders == p.state.orders[outcome.value := key]
              && q.state.identities == p.state.identities[key := Identity(None, outcome)]
              && q == p.(state := q.state, existing := p.existing + {row.importKey}, imported := p.imported + 1)
            else
              && q.thrown && q.state.orders == p.state.orders && q.state.movements == p.state.movements
              && q.imported == p.imported && q.skipped == p.skipped
              && key !in q.state.identities
              && forall k :: k in p.state.identities && p.state.identities[k].orderId.Some? ==>
                   k in q.state.identities && q.state.identities[k] == p.state.identities[k]
  {
  }

  /** The row's sale is new, and its import succeeds with a fresh order. */
  predicate RowImportable(p: CsvProgress, tenant: string, row: CsvRow, outcome: Option<OrderId>) {
    && !p.thrown && row.importKey !in p.existing
    && IdentityKey(tenant, PagBank, Production, row.saleId) !in p.state.identities
    && outcome.Some? && outcome.value !in p.state.orders
  }

  /** The order was created for the row `k`, when its turn came. */
  ghost predicate CreatedAt(p: CsvProgress, tenant: string, rows: seq<CsvRow>, outcomes: seq<Option<OrderId>>, k: nat,
      order: OrderId)
    requires k < |rows| == |outcomes|
  {
    && RowImportable(ImportFirst(p, tenant, rows, outcomes, k), tenant, rows[k], outcomes[k])
    && outcomes[k] == Some(order)
  }

  predicate HoldsRow(t: State, tenant: string, saleId: string, order: OrderId) {
    var key := IdentityKey(tenant, PagBank, Production, saleId);
    && order in t.orders && t.orders[order] == key
    && key in t.identities && t.identities[key] == Identity(None, Some(order))
  }

  lemma {:induction false} RowKeepsImport(p: CsvProgress, tenant: string, row: CsvRow, outcome: Option<OrderId>,
      saleId: string, order: OrderId)
    requires HoldsRow(p.state, tenant, saleId, order)
    ensures HoldsRow(ImportRow(p, tenant, row, outcome).state, tenant, saleId, order)
  {
  }

  /** And the order stays, linked to the identity of the sale. */
  lemma {:induction false} RowStays(p: CsvProgress, tenant: string, rows: seq<CsvRow>,
      outcomes: seq<Option<OrderId>>, k: nat, n: nat, order: OrderId)
    requires k < n <= |rows| == |outcomes| && CreatedAt(p, tenant, rows, outcomes, k, order)
    ensures HoldsRow(ImportFirst(p, tenant, rows, outcomes, n).state, tenant, rows[k].saleId, order)
    decreases n
  {
    var q := ImportFirst(p, tenant, rows, outcomes, n - 1);
    if k < n - 1 {
      RowStays(p, tenant, rows, outcomes, k, n - 1, order);
      RowKeepsImport(q, tenant, rows[n - 1], outcomes[n - 1], rows[k].saleId, order);
    }
  }

  lemma {:induction false} RowOrders(p: CsvProgress, tenant: string, row: CsvRow, outcome: Option<OrderId>,
      order: OrderId)
    ensures var t := ImportRow(p, tenant, row, outcome).state;
            && (order in t.orders
                <==> order in p.state.orders || (RowImportable(p, tenant, row, outcome) && outcome == Some(order)))
            && (order in p.state.orders ==> t.orders[order] == p.state.orders[order])
  {
    if !p.thrown { RowSays(p, tenant, row, outcome); }
  }

  /** Exactly what a CSV import creates: an order for each row whose sale was new when its turn came and
      whose import succeeded, linked to the identity of the sale (RowStays); nothing else adds an order. */
  lemma {:induction false} CsvImportedIff(p: CsvProgress, tenant: string, rows: seq<CsvRow>,
      outcomes: seq<Option<OrderId>>, n: nat, order: OrderId)
    requires n <= |rows| == |outcomes|
    ensures var t := ImportFirst(p, tenant, rows, outcomes, n).state;
            && (order in t.orders
                <==> order in p.state.orders
                     || exists k :: 0 <= k < n && CreatedAt(p, tenant, rows, outcomes, k, order))
            && (order in p.state.orders ==> t.orders[order] == p.state.orders[order])
  {
    hide ImportRow, RowImportable;
    if n > 0 {
      CsvImportedIff(p, tenant, rows, outcomes, n - 1, order);
      var q := ImportFirst(p, tenant, rows, outcomes, n - 1);
      RowOrders(q, tenant, rows[n - 1], outcomes[n - 1], order);
      assert CreatedAt(p, tenant, rows, outcomes, n - 1, order)
        <==> RowImportable(q, tenant, rows[n - 1], outcomes[n - 1]) && outcomes[n - 1] == Some(order);
      hide ImportFirst, CreatedAt;
    }
  }
}
