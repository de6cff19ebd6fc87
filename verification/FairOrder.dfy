/** The in-memory ordering policy: the jobs are sorted, then dealt from the tenants' queues in turn. */
module FairOrder {
  import opened Wrappers
  import opened JobTable
  import opened RoundRobin

  /** `idRank` is the place of the identifier in the locale's collation order. */
  datatype Candidate = Candidate(id: string, idRank: int, tenant: Option<string>, priority: Priority,
      availableAt: int, createdAt: int)

  /** The comparator: the first difference that is not zero. */
  function Compare(a: Candidate, b: Candidate): int {
    var byPriority := Rank(a.priority) - Rank(b.priority);
    var byAvailable := a.availableAt - b.availableAt;
    var byCreated := a.createdAt - b.createdAt;
    if byPriority != 0 then byPriority
    else if byAvailable != 0 then byAvailable
    else if byCreated != 0 then byCreated
    else a.idRank - b.idRank
  }

  /** The queue a job joins; a job without a tenant has a queue of its own. */
  function QueueKey(c: Candidate): string {
    if c.tenant.Some? then c.tenant.value else "system:" + c.id
  }

  // ---------- sorting ----------

  function Insert(c: Candidate, sorted: seq<Candidate>): seq<Candidate> {
    if |sorted| == 0 || Compare(c, sorted[0]) <= 0 then [c] + sorted else [sorted[0]] + Insert(c, sorted[1..])
  }

  /** The stable sort that Array.prototype.sort is required to be. */
  function Sort(cs: seq<Candidate>): seq<Candidate> {
    if |cs| == 0 then [] else Insert(cs[0], Sort(cs[1..]))
  }

  predicate IsSorted(cs: seq<Candidate>) {
    |cs| > 0 ==> NoneBefore(cs[0], cs[1..]) && IsSorted(cs[1..])
  }

  predicate NoneBefore(c: Candidate, cs: seq<Candidate>) {
    forall x :: x in cs ==> Compare(c, x) <= 0
  }

  lemma {:induction false} CompareOrder(a: Candidate, b: Candidate, c: Candidate)
    ensures Compare(a, b) <= 0 || Compare(b, a) <= 0
    ensures Compare(a, b) <= 0 && Compare(b, c) <= 0 ==> Compare(a, c) <= 0
  {
  }

  lemma {:induction false} InsertPermutes(c: Candidate, sorted: seq<Candidate>)
    ensures multiset(Insert(c, sorted)) == multiset(sorted) + multiset{c}
  {
    if |sorted| > 0 {
      assert sorted == [sorted[0]] + sorted[1..];
      if Compare(c, sorted[0]) > 0 { InsertPermutes(c, sorted[1..]); }
    }
  }

  lemma {:induction false} InsertSorts(c: Candidate, sorted: seq<Candidate>)
    requires IsSorted(sorted)
    ensures IsSorted(Insert(c, sorted))
  {
    if |sorted| > 0 {
      CompareOrder(c, sorted[0], c);
      if Compare(c, sorted[0]) > 0 {
        InsertSorts(c, sorted[1..]);
        InsertPermutes(c, sorted[1..]);
        forall x | x in Insert(c, sorted[1..]) ensures Compare(sorted[0], x) <= 0 {
          assert x in multiset(Insert(c, sorted[1..]));
        }
      } else {
        forall x | x in sorted ensures Compare(c, x) <= 0 {
          CompareOrder(c, sorted[0], x);
          assert x == sorted[0] || x in sorted[1..];
        }
      }
    }
  }

  lemma {:induction false} SortSorts(cs: seq<Candidate>)
    ensures IsSorted(Sort(cs)) && multiset(Sort(cs)) == multiset(cs)
  {
    if |cs| > 0 {
      SortSorts(cs[1..]);
      InsertSorts(cs[0], Sort(cs[1..]));
      InsertPermutes(cs[0], Sort(cs[1..]));
      assert cs == [cs[0]] + cs[1..];
    }
  }

  // ---------- the policy ----------

  function ByQueue(): Candidate -> string { (c: Candidate) => QueueKey(c) }

  /** The jobs of queue `key` among the first `n`. */
  function InQueue(key: string, cs: seq<Candidate>, n: nat): seq<Candidate>
    requires n <= |cs|
  {
    Among(ByQueue(), key, cs, n)
  }

  function QueueOf(key: string, cs: seq<Candidate>): seq<Candidate> { InQueue(key, cs, |cs|) }

  /** The sorted jobs, one queue per tenant. */
  function TenantQueues(candidates: seq<Candidate>): seq<seq<Candidate>> { Queues(ByQueue(), Sort(candidates)) }

  function TenantOrder(candidates: seq<Candidate>): seq<string> {
    Keys(ByQueue(), Sort(candidates), |Sort(candidates)|)
  }

  /** What the policy answers. */
  function Fair(candidates: seq<Candidate>): seq<Candidate> { Rounds(TenantQueues(candidates), 0) }

  lemma {:induction false} HasQueue(candidates: seq<Candidate>, j: nat)
    requires j < |TenantOrder(candidates)|
    ensures QueueOf(TenantOrder(candidates)[j], Sort(candidates)) == TenantQueues(candidates)[j]
    ensures QueueOf(TenantOrder(candidates)[j], Fair(candidates)) == TenantQueues(candidates)[j]
  {
    QueuesSorted(ByQueue(), Sort(candidates));
    OfRounds(ByQueue(), TenantOrder(candidates), TenantQueues(candidates), j, 0);
  }

  lemma {:induction false} HasNoQueue(candidates: seq<Candidate>, key: string)
    requires key !in TenantOrder(candidates)
    ensures QueueOf(key, Sort(candidates)) == []
    ensures forall k :: 0 <= k <= |Fair(candidates)| ==> InQueue(key, Fair(candidates), k) == []
  {
    var sorted, fair := Sort(candidates), Fair(candidates);
    KeysCover(ByQueue(), sorted, |sorted|);
    AmongNone(ByQueue(), key, sorted, |sorted|);
    RoundsFromQueues(TenantQueues(candidates), 0);
    forall i | 0 <= i < |fair| ensures ByQueue()(fair[i]) != key {
      assert fair[i] in fair;
      var j :| 0 <= j < |TenantQueues(candidates)| && fair[i] in TenantQueues(candidates)[j];
      AmongKeepsKey(ByQueue(), TenantOrder(candidates)[j], sorted, |sorted|);
    }
    forall k | 0 <= k <= |fair| ensures InQueue(key, fair, k) == [] { AmongNone(ByQueue(), key, fair, k); }
  }

  /** Every queue's jobs come out complete and in sorted order. */
  lemma {:induction false} QueueOrderKept(candidates: seq<Candidate>, key: string)
    ensures QueueOf(key, Fair(candidates)) == QueueOf(key, Sort(candidates))
    ensures IsSorted(QueueOf(key, Fair(candidates)))
  {
    if key in TenantOrder(candidates) {
      var j :| 0 <= j < |TenantOrder(candidates)| && TenantOrder(candidates)[j] == key;
      HasQueue(candidates, j);
    } else {
      HasNoQueue(candidates, key);
    }
    SortSorts(candidates);
    QueueSorted(key, Sort(candidates));
  }

  lemma {:induction false} QueueSorted(key: string, cs: seq<Candidate>)
    requires IsSorted(cs)
    ensures IsSorted(QueueOf(key, cs)) && forall c :: c in QueueOf(key, cs) ==> c in cs
  {
    if |cs| > 0 {
      QueueSorted(key, cs[1..]);
      OfFront(ByQueue(), key, cs);
      var rest := QueueOf(key, cs[1..]);
      assert ([cs[0]] + rest)[1..] == rest && [] + rest == rest;
    }
  }

  lemma {:induction false} AsOften(candidates: seq<Candidate>, c: Candidate)
    ensures multiset(Fair(candidates))[c] == multiset(Sort(candidates))[c]
  {
    hide Sort, Fair, Among;
    var sorted, fair := Sort(candidates), Fair(candidates);
    assert fair[..|fair|] == fair && sorted[..|sorted|] == sorted;
    CountInQueue(ByQueue(), c, fair, |fair|);
    CountInQueue(ByQueue(), c, sorted, |sorted|);
    QueueOrderKept(candidates, QueueKey(c));
  }

  lemma {:induction false} SameLength<C>(a: seq<C>, b: seq<C>)
    requires multiset(a) == multiset(b)
    ensures |a| == |b|
  {
    assert |multiset(a)| == |a| && |multiset(b)| == |b|;
  }

  /** The answer lists the candidates, each as often as it was given. */
  lemma {:induction false} Permutation(candidates: seq<Candidate>)
    ensures multiset(Fair(candidates)) == multiset(candidates)
    ensures |Fair(candidates)| == |candidates| == |Sort(candidates)|
  {
    hide Sort, Fair, IsSorted;
    SortSorts(candidates);
    forall c ensures multiset(Fair(candidates))[c] == multiset(Sort(candidates))[c] { AsOften(candidates, c); }
    assert multiset(Fair(candidates)) == multiset(Sort(candidates));
    SameLength(Fair(candidates), candidates);
    SameLength(Sort(candidates), candidates);
  }

  /** Round robin: among the first `k` of the answer, while queue `a` still has jobs left, no queue
      is more than one job ahead of it. */
  lemma {:induction false} InTurn(candidates: seq<Candidate>, k: nat, a: string, b: string)
    requires k <= |Fair(candidates)|
    requires |InQueue(a, Fair(candidates), k)| < |QueueOf(a, candidates)|
    ensures |InQueue(b, Fair(candidates), k)| <= |InQueue(a, Fair(candidates), k)| + 1
  {
    var keys, queues := TenantOrder(candidates), TenantQueues(candidates);
    QueuesSorted(ByQueue(), Sort(candidates));
    var m := PrefixLevel(ByQueue(), keys, queues, 0, k);
    QueueLength(a, candidates);
    if b !in keys {
      HasNoQueue(candidates, b);
    } else if a !in keys {
      HasNoQueue(candidates, a);
    } else {
      var i :| 0 <= i < |keys| && keys[i] == a;
      var j :| 0 <= j < |keys| && keys[j] == b;
      HasQueue(candidates, i);
      hide Keys, Queues, Among, Rounds, Sort;
      assert StopsInRound(|queues[i]|, 0, m, |InQueue(a, Fair(candidates), k)|);
      assert StopsInRound(|queues[j]|, 0, m, |InQueue(b, Fair(candidates), k)|);
    }
  }

  lemma {:induction false} QueueLength(key: string, candidates: seq<Candidate>)
    ensures |QueueOf(key, Sort(candidates))| == |QueueOf(key, candidates)|
  {
    if |candidates| > 0 {
      QueueLength(key, candidates[1..]);
      InsertLength(key, candidates[0], Sort(candidates[1..]));
      OfFront(ByQueue(), key, candidates);
    }
  }

  lemma {:induction false} InsertLength(key: string, c: Candidate, sorted: seq<Candidate>)
    ensures |QueueOf(key, Insert(c, sorted))| == |QueueOf(key, sorted)| + if QueueKey(c) == key then 1 else 0
  {
    OfFront(ByQueue(), key, Insert(c, sorted));
    if |sorted| == 0 || Compare(c, sorted[0]) <= 0 {
      assert Insert(c, sorted)[1..] == sorted;
    } else {
      InsertLength(key, c, sorted[1..]);
      assert Insert(c, sorted)[1..] == Insert(c, sorted[1..]);
      OfFront(ByQueue(), key, sorted);
    }
  }

  method OrderFairly(candidates: seq<Candidate>) returns (result: seq<Candidate>)
    ensures result == Fair(candidates)
  {
    hide Sort, Rounds, Queues, Rest;
    var sorted := Sort(candidates);
    var tenantOrder, queues := Group(ByQueue(), sorted);
    ghost var whole := TenantQueues(candidates);
    Permutation(candidates);
    result := [];
    ghost var r := 0;
    while |result| < |sorted|
      invariant Dealt(tenantOrder, whole, queues, 0, r)
      invariant result + Rounds(whole, r) == Fair(candidates)
      decreases |sorted| - |result|
    {
      var round;
      round, queues := Deal(tenantOrder, queues, whole, r);
      DealtSoFar(whole, r, result, Fair(candidates));
      result := result + round;
      r := r + 1;
    }
    DealtSoFar(whole, r, result, Fair(candidates));
  }

  // ---------- in the fields of the candidates ----------

  /** The sorted order: better priorities first, then the job available longer, then the one created
      earlier, then by identifier. */
  predicate Precedes(a: Candidate, b: Candidate) {
    && NoWorse(a.priority, b.priority)
    && (a.priority == b.priority ==> a.availableAt <= b.availableAt)
    && (a.priority == b.priority && a.availableAt == b.availableAt ==> a.createdAt <= b.createdAt)
    && (a.priority == b.priority && a.availableAt == b.availableAt && a.createdAt == b.createdAt ==>
          a.idRank <= b.idRank)
  }

  lemma {:induction false} SortedPrecedes(cs: seq<Candidate>, i: nat, j: nat)
    requires IsSorted(cs) && i < j < |cs|
    ensures Precedes(cs[i], cs[j])
  {
    if i == 0 {
      assert cs[j] in cs[1..];
    } else {
      SortedPrecedes(cs[1..], i - 1, j - 1);
    }
  }

  /** Within each queue the jobs come out in that order. */
  lemma {:induction false} QueuePrecedes(candidates: seq<Candidate>, key: string, i: nat, j: nat)
    requires i < j < |QueueOf(key, Fair(candidates))|
    ensures Precedes(QueueOf(key, Fair(candidates))[i], QueueOf(key, Fair(candidates))[j])
  {
    QueueOrderKept(candidates, key);
    SortedPrecedes(QueueOf(key, Fair(candidates)), i, j);
  }

  lemma {:induction false} PrefixInjective(p: string, a: string, b: string)
    requires p + a == p + b
    ensures a == b
  {
    assert a == (p + a)[|p|..] && b == (p + b)[|p|..];
  }

  /** Two jobs share a queue exactly when they are one tenant's, or one and the same job without a
      tenant; or when a tenant is called "system:" and the id of a job without one. */
  lemma {:induction false} SharedQueueIff(a: Candidate, b: Candidate)
    ensures QueueKey(a) == QueueKey(b) <==>
      (match (a.tenant, b.tenant)
       case (Some(t), Some(u)) => t == u
       case (None, None) => a.id == b.id
       case (Some(t), None) => t == "system:" + b.id
       case (None, Some(u)) => u == "system:" + a.id)
  {
    if QueueKey(a) == QueueKey(b) && a.tenant.None? && b.tenant.None? { PrefixInjective("system:", a.id, b.id); }
  }

  /** The fair order begins with the first job of every queue, queue by queue. */
  lemma {:induction false} QueuesBegin(candidates: seq<Candidate>, j: nat)
    requires j < |TenantOrder(candidates)|
    ensures var queue := QueueOf(TenantOrder(candidates)[j], Sort(candidates));
            |queue| > 0 && j < |Fair(candidates)| && Fair(candidates)[j] == queue[0]
  {
    var sorted := Sort(candidates);
    forall i | 0 <= i < |TenantOrder(candidates)| ensures |TenantQueues(candidates)[i]| > 0 {
      QueueNotEmpty(ByQueue(), sorted, |sorted|, TenantOrder(candidates)[i]);
    }
    hide Sort, Keys, Among, Rounds;
    HeadsFirst(TenantQueues(candidates), j);
  }

  /** Queues take their turns in the order of their first jobs. */
  lemma {:induction false} BetterQueueFirst(candidates: seq<Candidate>, i: nat, j: nat)
    requires i < j < |TenantOrder(candidates)|
    ensures j < |Fair(candidates)| && Precedes(Fair(candidates)[i], Fair(candidates)[j])
  {
    var sorted, keys := Sort(candidates), TenantOrder(candidates);
    QueuesBegin(candidates, i);
    QueuesBegin(candidates, j);
    SortSorts(candidates);
    var p := HeadIs(ByQueue(), keys[i], sorted, |sorted|);
    var q := HeadIs(ByQueue(), keys[j], sorted, |sorted|);
    hide Sort, Keys, Among, Rounds, IsSorted, Precedes;
    KeysByAppearance(ByQueue(), sorted, |sorted|, i, j, p, q);
    SortedPrecedes(sorted, p, q);
  }
}
