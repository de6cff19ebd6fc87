/** Sales imported from providers: two importers race on one identity row per external sale. */
module SalesImport {
  import opened Wrappers

  datatype Environment = Test | Production
  datatype Provider = PagBank | MercadoPago | Ifood

  type OrderId = string
  type MovementId = string
  type IntegrationId = string
  type WorkerId = string

  datatype IdentityKey = IdentityKey(tenant: string, provider: Provider, environment: Environment, saleId: string)

  /** The row behind the unique key: who first claimed it, and the order it is linked to. */
  datatype Identity = Identity(integration: Option<IntegrationId>, orderId: Option<OrderId>)

  datatype MovementStatus = New | Failed | Duplicate | Imported(orderId: OrderId)

  /** A movement of a provider run, or a row of a CSV file. */
  datatype Origin = Api(integration: IntegrationId, movement: MovementId) | Csv

  /** What a worker is in the middle of. */
  datatype Work =
    | Claimed(key: IdentityKey, origin: Origin)
    | Releasing(key: IdentityKey, origin: Origin)
    | Marking(movement: MovementId, status: MovementStatus)

  /** A confirmation loop per provider run and the PAGBANK CSV import: any number of workers interleave
      their atomic database calls, crash, and start again. `orders` holds the orders that imports created,
      with the sale each was created for. */
  datatype State = State(
    identities: map<IdentityKey, Identity>,
    orders: map<OrderId, IdentityKey>,
    movements: map<MovementId, MovementStatus>,
    workers: map<WorkerId, Work>)

  datatype Step =
    | ApiClaim(w: WorkerId, key: IdentityKey, integration: IntegrationId, movement: MovementId)
    | CsvClaim(w: WorkerId, tenant: string, saleId: string)
    /** The transaction: create the order, link the identity, mark the movement. */
    | Commit(w: WorkerId, order: OrderId)
    /** It commits, but the worker sees an error. */
    | CommitUnseen(w: WorkerId, order: OrderId)
    | Abort(w: WorkerId)
    | Release(w: WorkerId)
    | Mark(w: WorkerId)
    | Crash(w: WorkerId)
    /** An operational iFood order takes the identity over; the movement is marked next. */
    | Attach(w: WorkerId, key: IdentityKey, integration: IntegrationId, movement: MovementId, order: OrderId)

  // ---------- the database calls ----------

  function Link(ids: map<IdentityKey, Identity>, key: IdentityKey, order: OrderId): map<IdentityKey, Identity>
    requires key in ids
  {
    ids[key := ids[key].(orderId := Some(order))]
  }

  /** The confirmation loop's release names the environment and the integration. */
  function ReleaseApi(ids: map<IdentityKey, Identity>, key: IdentityKey,
      integration: IntegrationId): map<IdentityKey, Identity> {
    if key in ids && ids[key] == Identity(Some(integration), None) then ids - {key} else ids
  }

  /** The CSV import's release names neither: it reaches the unlinked row of every environment. */
  predicate CsvReleaseReaches(ids: map<IdentityKey, Identity>, key: IdentityKey, k: IdentityKey) {
    k in ids && ids[k].orderId.None? && k.tenant == key.tenant && k.provider == key.provider && k.saleId == key.saleId
  }

  function ReleaseCsv(ids: map<IdentityKey, Identity>, key: IdentityKey): map<IdentityKey, Identity> {
    map k | k in ids && !CsvReleaseReaches(ids, key, k) :: ids[k]
  }

  function AttachOrder(ids: map<IdentityKey, Identity>, key: IdentityKey, integration: IntegrationId,
      order: OrderId): map<IdentityKey, Identity> {
    ids[key := Identity(Some(integration), Some(order))]
  }

  function CsvKey(tenant: string, saleId: string): IdentityKey { IdentityKey(tenant, PagBank, Production, saleId) }

  function Committed(s: State, work: Work, order: OrderId): State
    requires work.Claimed? && work.key in s.identities
  {
    s.(orders := s.orders[order := work.key],
       identities := Link(s.identities, work.key, order),
       movements := if work.origin.Api? then s.movements[work.origin.movement := Imported(order)] else s.movements)
  }

  predicate At(s: State, step: Step) {
    match step
    case ApiClaim(w, _, _, _) => w !in s.workers
    case CsvClaim(w, _, _) => w !in s.workers
    case Commit(w, order) =>
      w in s.workers && s.workers[w].Claimed? && s.workers[w].key in s.identities && order !in s.orders
    case CommitUnseen(w, order) =>
      w in s.workers && s.workers[w].Claimed? && s.workers[w].key in s.identities && order !in s.orders
    case Abort(w) => w in s.workers && s.workers[w].Claimed?
    case Release(w) => w in s.workers && s.workers[w].Releasing?
    case Mark(w) => w in s.workers && s.workers[w].Marking?
    case Crash(w) => w in s.workers
    case Attach(w, key, _, _, _) => w !in s.workers && key.provider == Ifood
  }

  function Do(s: State, step: Step): State
    requires At(s, step)
  {
    match step
    case ApiClaim(w, key, integration, movement) =>
      if key in s.identities then s.(workers := s.workers[w := Marking(movement, Duplicate)])
      else s.(identities := s.identities[key := Identity(Some(integration), None)],
              workers := s.workers[w := Claimed(key, Api(integration, movement))])
    case CsvClaim(w, tenant, saleId) =>
      if CsvKey(tenant, saleId) in s.identities then s
      else s.(identities := s.identities[CsvKey(tenant, saleId) := Identity(None, None)],
              workers := s.workers[w := Claimed(CsvKey(tenant, saleId), Csv)])
    case Commit(w, order) => Committed(s, s.workers[w], order).(workers := s.workers - {w})
    case CommitUnseen(w, order) =>
      Committed(s, s.workers[w], order).(workers := s.workers[w := Releasing(s.workers[w].key, s.workers[w].origin)])
    case Abort(w) => s.(workers := s.workers[w := Releasing(s.workers[w].key, s.workers[w].origin)])
    case Release(w) =>
      var work := s.workers[w];
      if work.origin.Csv? then s.(identities := ReleaseCsv(s.identities, work.key), workers := s.workers - {w})
      else s.(identities := ReleaseApi(s.identities, work.key, work.origin.integration),
              workers := s.workers[w := Marking(work.origin.movement, Failed)])
    case Mark(w) =>
      s.(movements := s.movements[s.workers[w].movement := s.workers[w].status], workers := s.workers - {w})
    case Crash(w) => s.(workers := s.workers - {w})
    case Attach(w, key, integration, movement, order) =>
      s.(identities := AttachOrder(s.identities, key, integration, order),
          workers := s.workers[w := Marking(movement, Imported(order))])
  }

  predicate ValidRun(s: State, steps: seq<Step>)
    decreases |steps|
  {
    |steps| > 0 ==> At(s, steps[0]) && ValidRun(Do(s, steps[0]), steps[1..])
  }

  function Run(s: State, steps: seq<Step>): State
    requires ValidRun(s, steps)
    decreases |steps|
  {
    if |steps| == 0 then s else Run(Do(s, steps[0]), steps[1..])
  }

  lemma {:induction false} First(s: State, step: Step, rest: seq<Step>, k: IdentityKey)
    requires At(s, step) && ValidRun(Do(s, step), rest)
    ensures ValidRun(s, [step] + rest) && Run(s, [step] + rest) == Run(Do(s, step), rest)
    ensures NoHits(s, [step] + rest, k) <==> !ForeignHit(s, step, k) && NoHits(Do(s, step), rest, k)
  {
    assert ([step] + rest)[1..] == rest;
  }

  // ---------- at most one order per sale ----------

  /** The worker has claimed the sale and has not yet finished with it. */
  predicate Busy(s: State, w: WorkerId, k: IdentityKey) {
    w in s.workers && (s.workers[w].Claimed? || s.workers[w].Releasing?) && s.workers[w].key == k
  }

  predicate NoOrder(s: State, k: IdentityKey) { forall o :: o in s.orders ==> s.orders[o] != k }

  predicate AtMostOneOrder(s: State, k: IdentityKey) {
    forall o, p :: o in s.orders && p in s.orders && s.orders[o] == k && s.orders[p] == k ==> o == p
  }

  predicate KeyOk(s: State, k: IdentityKey) {
    && (forall v, w :: v in s.workers && w in s.workers && Busy(s, v, k) && Busy(s, w, k) ==> v == w)
    && (forall w :: w in s.workers && Busy(s, w, k) ==> k in s.identities)
    && (forall w :: w in s.workers && Busy(s, w, k) && s.workers[w].Claimed? ==> NoOrder(s, k))
    && (k !in s.identities || s.identities[k].orderId.None? ==> NoOrder(s, k))
    && AtMostOneOrder(s, k)
  }

  /** CSV work is always on a production identity of PAGBANK. */
  predicate CsvKeys(s: State) {
    forall w :: w in s.workers && (s.workers[w].Claimed? || s.workers[w].Releasing?) && s.workers[w].origin.Csv? ==>
      s.workers[w].key.provider == PagBank && s.workers[w].key.environment == Production
  }

  /** A CSV release is about to delete the row of sale `k` under another worker's feet: the sale is
      claimed, not yet linked, in another environment than the CSV row's own. */
  ghost predicate ForeignHit(s: State, step: Step, k: IdentityKey) {
    && step.Release? && step.w in s.workers && s.workers[step.w].Releasing? && s.workers[step.w].origin.Csv?
    && s.workers[step.w].key != k
    && CsvReleaseReaches(s.identities, s.workers[step.w].key, k)
    && exists v :: v in s.workers && Busy(s, v, k)
  }

  ghost predicate NoHits(s: State, steps: seq<Step>, k: IdentityKey)
    requires ValidRun(s, steps)
    decreases |steps|
  {
    |steps| > 0 ==> !ForeignHit(s, steps[0], k) && NoHits(Do(s, steps[0]), steps[1..], k)
  }

  lemma StartsEmpty(k: IdentityKey)
    ensures var s := State(map[], map[], map[], map[]); KeyOk(s, k) && CsvKeys(s)
  {
  }

  lemma {:induction false} CsvKeysKept(s: State, step: Step)
    requires CsvKeys(s) && At(s, step)
    ensures CsvKeys(Do(s, step))
  {
  }

  /** The transaction keeps the key in order, whether or not its worker learns of it. */
  lemma {:induction false} CommitKeeps(s: State, w: WorkerId, order: OrderId, left: map<WorkerId, Work>, k: IdentityKey)
    requires KeyOk(s, k) && At(s, Commit(w, order))
    requires left == s.workers - {w} || left == s.workers[w := Releasing(s.workers[w].key, s.workers[w].origin)]
    ensures KeyOk(Committed(s, s.workers[w], order).(workers := left), k)
  {
    if s.workers[w].key == k { assert Busy(s, w, k); }
    var u := Committed(s, s.workers[w], order).(workers := left);
    forall v | v in u.workers && Busy(u, v, k) ensures Busy(s, v, k) && (u.workers[v].Claimed? ==> v != w) {}
  }

  lemma {:induction false} ReleaseKeeps(s: State, w: WorkerId, k: IdentityKey)
    requires KeyOk(s, k) && At(s, Release(w)) && !ForeignHit(s, Release(w), k)
    ensures KeyOk(Do(s, Release(w)), k)
  {
    var u := Do(s, Release(w));
    if s.workers[w].key == k { assert Busy(s, w, k); }
    forall v | v in u.workers && Busy(u, v, k) ensures v != w && Busy(s, v, k) && k in u.identities {}
  }

  /** A worker that had nothing in hand takes a key no one has. */
  lemma {:induction false} ClaimKeeps(s: State, w: WorkerId, key: IdentityKey, integration: Option<IntegrationId>,
      origin: Origin, k: IdentityKey)
    requires KeyOk(s, k) && w !in s.workers && key !in s.identities
    ensures KeyOk(s.(identities := s.identities[key := Identity(integration, None)],
        workers := s.workers[w := Claimed(key, origin)]), k)
  {
    var u := s.(identities := s.identities[key := Identity(integration, None)],
        workers := s.workers[w := Claimed(key, origin)]);
    forall v | v in u.workers && Busy(u, v, k) && v != w ensures Busy(s, v, k) {}
  }

  /** Whatever keeps the identities, or links one more to an order, and makes no worker busy. */
  lemma {:induction false} QuietKeeps(s: State, u: State, k: IdentityKey)
    requires KeyOk(s, k) && u.orders == s.orders
    requires k in s.identities ==> k in u.identities
    requires k in u.identities && u.identities[k].orderId.None? ==> k in s.identities && s.identities[k].orderId.None?
    requires forall v :: v in u.workers && Busy(u, v, k) ==>
        Busy(s, v, k) && (u.workers[v].Claimed? ==> s.workers[v].Claimed?)
    ensures KeyOk(u, k)
  {
  }

  lemma {:induction false} StepKeeps(s: State, step: Step, k: IdentityKey)
    requires KeyOk(s, k) && At(s, step) && !ForeignHit(s, step, k)
    ensures KeyOk(Do(s, step), k)
  {
    hide KeyOk, ForeignHit;
    match step
    case Commit(w, order) => CommitKeeps(s, w, order, s.workers - {w}, k);
    case CommitUnseen(w, order) =>
      CommitKeeps(s, w, order, s.workers[w := Releasing(s.workers[w].key, s.workers[w].origin)], k);
    case Release(w) => ReleaseKeeps(s, w, k);
    case ApiClaim(w, key, integration, movement) =>
      if key in s.identities {
        QuietKeeps(s, Do(s, step), k);
      } else {
        ClaimKeeps(s, w, key, Some(integration), Api(integration, movement), k);
      }
    case CsvClaim(w, tenant, saleId) =>
      if CsvKey(tenant, saleId) !in s.identities { ClaimKeeps(s, w, CsvKey(tenant, saleId), None, Csv, k); }
    case _ => QuietKeeps(s, Do(s, step), k);
  }

  /** Over every interleaving, crash and restart, at most one order is ever created for a sale, as
      long as no CSV release hits a claim of the sale in another environment. */
  lemma {:induction false} AtMostOnce(s: State, steps: seq<Step>, k: IdentityKey)
    requires KeyOk(s, k) && ValidRun(s, steps) && NoHits(s, steps, k)
    ensures KeyOk(Run(s, steps), k) && AtMostOneOrder(Run(s, steps), k)
    decreases |steps|
  {
    if |steps| > 0 {
      StepKeeps(s, steps[0], k);
      AtMostOnce(Do(s, steps[0]), steps[1..], k);
    }
  }

  lemma {:induction false} NoHitOn(s: State, step: Step, k: IdentityKey)
    requires CsvKeys(s) && (k.environment == Production || k.provider != PagBank)
    ensures !ForeignHit(s, step, k)
  {
  }

  /** In production, and for every provider but PAGBANK, there is nothing to rule out. */
  lemma {:induction false} AlwaysAtMostOnce(s: State, steps: seq<Step>, k: IdentityKey)
    requires k.environment == Production || k.provider != PagBank
    requires CsvKeys(s) && KeyOk(s, k) && ValidRun(s, steps)
    ensures NoHits(s, steps, k) && AtMostOneOrder(Run(s, steps), k)
    decreases |steps|
  {
    if |steps| > 0 {
      NoHitOn(s, steps[0], k);
      CsvKeysKept(s, steps[0]);
      StepKeeps(s, steps[0], k);
      AlwaysAtMostOnce(Do(s, steps[0]), steps[1..], k);
    }
  }

  lemma {:induction false} LinkedStaysStep(s: State, step: Step, k: IdentityKey)
    requires At(s, step) && k in s.identities && s.identities[k].orderId.Some?
    ensures k in Do(s, step).identities && Do(s, step).identities[k].orderId.Some?
  {
  }

  /** An identity that is linked to an order is never deleted or unlinked, in any run whatever. */
  lemma {:induction false} LinkedStays(s: State, steps: seq<Step>, k: IdentityKey)
    requires ValidRun(s, steps) && k in s.identities && s.identities[k].orderId.Some?
    ensures k in Run(s, steps).identities && Run(s, steps).identities[k].orderId.Some?
    decreases |steps|
  {
    if |steps| > 0 {
      LinkedStaysStep(s, steps[0], k);
      LinkedStays(Do(s, steps[0]), steps[1..], k);
    }
  }

  // ---------- what a hit does ----------

  /** After a hit on a worker that is still importing, a second import of the sale succeeds too. */
  lemma {:induction false} HitOnImport(s: State, v: WorkerId, k: IdentityKey, x: WorkerId, o: OrderId,
      p: OrderId) returns (steps: seq<Step>)
    requires k !in s.identities && v in s.workers && Busy(s, v, k) && s.workers[v].Claimed?
    requires x !in s.workers && o !in s.orders && p !in s.orders && o != p
    ensures ValidRun(s, steps) && NoHits(s, steps, k) && !AtMostOneOrder(Run(s, steps), k)
  {
    var s1 := Do(s, ApiClaim(x, k, "", ""));
    var s2 := Do(s1, Commit(x, o));
    var s3 := Do(s2, Commit(v, p));
    assert s3.orders[o] == k && s3.orders[p] == k;
    steps := [Commit(v, p)] + [];
    First(s2, Commit(v, p), [], k);
    First(s1, Commit(x, o), steps, k);
    steps := [Commit(x, o)] + steps;
    First(s, ApiClaim(x, k, "", ""), steps, k);
    steps := [ApiClaim(x, k, "", "")] + steps;
  }

  /** After a hit on a worker that is about to release, its release deletes the next claim too. */
  lemma {:induction false} HitOnRelease(s: State, v: WorkerId, k: IdentityKey, x: WorkerId, y: WorkerId, o: OrderId,
      p: OrderId)
    returns (steps: seq<Step>)
    requires k !in s.identities && v in s.workers && Busy(s, v, k) && s.workers[v].Releasing?
    requires s.workers[v].origin.Api?
    requires x !in s.workers && y !in s.workers && x != y && o !in s.orders && p !in s.orders && o != p
    ensures ValidRun(s, steps) && NoHits(s, steps, k) && !AtMostOneOrder(Run(s, steps), k)
  {
    var i := s.workers[v].origin.integration;
    var s1 := Do(s, ApiClaim(x, k, i, ""));
    var s2 := Do(s1, Release(v));
    assert k !in s2.identities && y !in s2.workers;
    assert s2.workers[x] == Claimed(k, Api(i, ""));
    steps := HitOnImport(s2, x, k, y, o, p);
    First(s1, Release(v), steps, k);
    steps := [Release(v)] + steps;
    First(s, ApiClaim(x, k, i, ""), steps, k);
    steps := [ApiClaim(x, k, i, "")] + steps;
  }

  lemma {:induction false} HitBreaks(s: State, w: WorkerId, k: IdentityKey, x: WorkerId, y: WorkerId, o: OrderId,
      p: OrderId)
    returns (steps: seq<Step>)
    requires CsvKeys(s) && KeyOk(s, k) && At(s, Release(w)) && ForeignHit(s, Release(w), k)
    requires x !in s.workers && y !in s.workers && x != y && o !in s.orders && p !in s.orders && o != p
    ensures var u := Do(s, Release(w));
            ValidRun(u, steps) && NoHits(u, steps, k) && !AtMostOneOrder(Run(u, steps), k)
  {
    var u := Do(s, Release(w));
    var v :| v in s.workers && Busy(s, v, k);
    assert k !in u.identities && v in u.workers && Busy(u, v, k);
    assert k.environment != Production;
    if s.workers[v].Claimed? {
      steps := HitOnImport(u, v, k, x, o, p);
    } else {
      steps := HitOnRelease(u, v, k, x, y, o, p);
    }
  }

  /** The exact condition. A release leaves the sale safe, in the sense that every hit-free run from
      there still creates at most one order, if and only if it is not a foreign hit on the sale. The
      fresh names x, y, o, p are those the second import would use. */
  lemma {:induction false} ReleaseIsSafeIff(s: State, w: WorkerId, k: IdentityKey, x: WorkerId, y: WorkerId,
      o: OrderId, p: OrderId)
    requires CsvKeys(s) && KeyOk(s, k) && At(s, Release(w))
    requires x !in s.workers && y !in s.workers && x != y && o !in s.orders && p !in s.orders && o != p
    ensures (forall steps :: ValidRun(Do(s, Release(w)), steps) && NoHits(Do(s, Release(w)), steps, k) ==>
               AtMostOneOrder(Run(Do(s, Release(w)), steps), k))
       <==> !ForeignHit(s, Release(w), k)
  {
    var u := Do(s, Release(w));
    if ForeignHit(s, Release(w), k) {
      var steps := HitBreaks(s, w, k, x, y, o, p);
    } else {
      StepKeeps(s, Release(w), k);
      forall steps | ValidRun(u, steps) && NoHits(u, steps, k) ensures AtMostOneOrder(Run(u, steps), k) {
        AtMostOnce(u, steps, k);
      }
    }
  }

  // ---------- a hit is reached ----------

  /** A sale is claimed in the test environment; the CSV import claims the same sale, fails, and is
      about to release it. So a run from the empty state, without any hit, leads to a foreign hit. */
  lemma {:induction false} HitIsReached(tenant: string, saleId: string, v: WorkerId, w: WorkerId)
    returns (steps: seq<Step>)
    requires v != w
    ensures var k, s := IdentityKey(tenant, PagBank, Test, saleId), State(map[], map[], map[], map[]);
            && ValidRun(s, steps) && NoHits(s, steps, k) && CsvKeys(Run(s, steps)) && KeyOk(Run(s, steps), k)
            && Run(s, steps).orders == map[] && Run(s, steps).workers.Keys == {v, w}
            && At(Run(s, steps), Release(w)) && ForeignHit(Run(s, steps), Release(w), k)
  {
    var k, key := IdentityKey(tenant, PagBank, Test, saleId), CsvKey(tenant, saleId);
    var s := State(map[], map[], map[], map[]);
    var s1 := s.(identities := map[k := Identity(Some(""), None)], workers := map[v := Claimed(k, Api("", ""))]);
    var s2 := s.(identities := s1.identities[key := Identity(None, None)],
        workers := s1.workers[w := Claimed(key, Csv)]);
    var s3 := s2.(workers := s1.workers[w := Releasing(key, Csv)]);
    assert Do(s, ApiClaim(v, k, "", "")) == s1 && Do(s1, CsvClaim(w, tenant, saleId)) == s2;
    assert s2.workers[w := Releasing(key, Csv)] == s3.workers && Do(s2, Abort(w)) == s3;
    assert Busy(s3, v, k);
    First(s2, Abort(w), [], k);
    steps := [Abort(w)] + [];
    First(s1, CsvClaim(w, tenant, saleId), steps, k);
    steps := [CsvClaim(w, tenant, saleId)] + steps;
    First(s, ApiClaim(v, k, "", ""), steps, k);
    steps := [ApiClaim(v, k, "", "")] + steps;
    StartsEmpty(k);
    AtMostOnce(s, steps, k);
  }

  lemma {:induction false} Joined(s: State, xs: seq<Step>, ys: seq<Step>)
    requires ValidRun(s, xs) && ValidRun(Run(s, xs), ys)
    ensures ValidRun(s, xs + ys) && Run(s, xs + ys) == Run(Run(s, xs), ys)
    decreases |xs|
  {
    if xs == [] {
      assert xs + ys == ys;
    } else {
      Joined(Do(s, xs[0]), xs[1..], ys);
      assert (xs + ys)[1..] == xs[1..] + ys;
    }
  }

  /** So every PAGBANK sale of the test environment can come to have two orders, from an empty start. */
  lemma {:induction false} TwoOrdersAreReached(tenant: string, saleId: string) returns (steps: seq<Step>)
    ensures var s := State(map[], map[], map[], map[]);
            ValidRun(s, steps) && !AtMostOneOrder(Run(s, steps), IdentityKey(tenant, PagBank, Test, saleId))
  {
    var s, k := State(map[], map[], map[], map[]), IdentityKey(tenant, PagBank, Test, saleId);
    hide ValidRun, NoHits, Run, KeyOk, AtMostOneOrder, ForeignHit;
    var before := HitIsReached(tenant, saleId, "v", "w");
    var t := Run(s, before);
    var after := HitBreaks(t, "w", k, "x", "y", "o", "p");
    First(t, Release("w"), after, k);
    Joined(s, before, [Release("w")] + after);
    steps := before + ([Release("w")] + after);
  }
}
