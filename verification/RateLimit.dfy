/**
 The fixed-window rate limiter: a map of buckets, pruned when it has grown, against a counter that
 never forgets a key. Times are whole milliseconds.
 */
module RateLimit {
  import opened Basics
  import opened Wrappers

  datatype Bucket = Bucket(count: nat, resetsAt: int)

  datatype Verdict = Allowed | Rejected(retryAfterSeconds: int)

  const PRUNE_SIZE: nat := 2000

  // ---------- one request ----------

  /** The key's bucket while its window lasts. */
  function Live<K(==)>(buckets: map<K, Bucket>, key: K, now: int): Option<Bucket> {
    if key in buckets && buckets[key].resetsAt > now then Some(buckets[key]) else None
  }

  /** The bucket the request is counted in. */
  function Counted(live: Option<Bucket>, windowMs: int, now: int): Bucket {
    match live
    case None => Bucket(1, now + windowMs)
    case Some(b) => b.(count := b.count + 1)
  }

  function CeilSeconds(ms: int): int { -((-ms) / 1000) }

  function VerdictOn(bucket: Bucket, limit: nat, now: int): Verdict {
    if bucket.count <= limit then Allowed
    else Rejected(if CeilSeconds(bucket.resetsAt - now) > 1 then CeilSeconds(bucket.resetsAt - now) else 1)
  }

  function Plain<K(==)>(buckets: map<K, Bucket>, windowMs: int, key: K, now: int): map<K, Bucket> {
    buckets[key := Counted(Live(buckets, key, now), windowMs, now)]
  }

  function Pruned<K(==)>(buckets: map<K, Bucket>, now: int): map<K, Bucket> {
    if |buckets| < PRUNE_SIZE then buckets else map k | k in buckets && buckets[k].resetsAt > now :: buckets[k]
  }

  // ---------- the guard ----------

  class FixedWindowRateLimitGuard<K(==)> {
    var buckets: map<K, Bucket>
    const limit: nat
    const windowMs: int

    constructor (limit: nat, windowMs: int)
      ensures buckets == map[] && this.limit == limit && this.windowMs == windowMs
    {
      buckets := map[];
      this.limit := limit;
      this.windowMs := windowMs;
    }

    method CanActivate(key: K, now: int) returns (verdict: Verdict)
      modifies this`buckets
      ensures buckets == Pruned(Plain(old(buckets), windowMs, key, now), now)
      ensures verdict == VerdictOn(Counted(Live(old(buckets), key, now), windowMs, now), limit, now)
    {
      var bucket := if key !in buckets || buckets[key].resetsAt <= now then Bucket(0, now + windowMs) else buckets[key];
      bucket := bucket.(count := bucket.count + 1);
      buckets := buckets[key := bucket];
      Prune(now);
      if bucket.count > limit {
        var seconds := CeilSeconds(bucket.resetsAt - now);
        return Rejected(if seconds > 1 then seconds else 1);
      }
      verdict := Allowed;
    }

    method Prune(now: int)
      modifies this`buckets
      ensures buckets == Pruned(old(buckets), now)
      ensures |old(buckets)| < 2000 ==> buckets == old(buckets)
      ensures |old(buckets)| >= 2000 ==>
        forall k :: (k in buckets <==> k in old(buckets) && old(buckets)[k].resetsAt > now)
          && (k in buckets ==> buckets[k] == old(buckets)[k])
    {
      if |buckets| < PRUNE_SIZE { return; }
      var rest := buckets.Keys;
      while rest != {}
        invariant forall k :: k in buckets <==> k in old(buckets) && (k in rest || old(buckets)[k].resetsAt > now)
        invariant forall k :: k in buckets ==> buckets[k] == old(buckets)[k]
        decreases |rest|
      {
        var key :| key in rest;
        rest := rest - {key};
        if key in buckets && buckets[key].resetsAt <= now { buckets := buckets - {key}; }
      }
    }
  }

  // ---------- runs of requests ----------

  datatype Request<K> = Request(key: K, now: int)

  ghost predicate InOrder<K>(requests: seq<Request<K>>) {
    forall i, j :: 0 <= i < j < |requests| ==> requests[i].now <= requests[j].now
  }

  /** The guard's buckets after the first `n` requests. */
  function After<K(==)>(requests: seq<Request<K>>, windowMs: int, n: nat): map<K, Bucket>
    requires n <= |requests|
  {
    if n == 0 then map[]
    else
      var r := requests[n - 1];
      Pruned(Plain(After(requests, windowMs, n - 1), windowMs, r.key, r.now), r.now)
  }

  /** The buckets that are never pruned. */
  function Remembered<K(==)>(requests: seq<Request<K>>, windowMs: int, n: nat): map<K, Bucket>
    requires n <= |requests|
  {
    if n == 0 then map[]
    else Plain(Remembered(requests, windowMs, n - 1), windowMs, requests[n - 1].key, requests[n - 1].now)
  }

  /** The bucket request `i` is counted in, by a given memory. */
  function BucketOf<K(==)>(before: map<K, Bucket>, request: Request<K>, windowMs: int): Bucket {
    Counted(Live(before, request.key, request.now), windowMs, request.now)
  }

  function GuardVerdict<K(==)>(requests: seq<Request<K>>, limit: nat, windowMs: int, i: nat): Verdict
    requires i < |requests|
  {
    VerdictOn(BucketOf(After(requests, windowMs, i), requests[i], windowMs), limit, requests[i].now)
  }

  function CounterVerdict<K(==)>(requests: seq<Request<K>>, limit: nat, windowMs: int, i: nat): Verdict
    requires i < |requests|
  {
    VerdictOn(BucketOf(Remembered(requests, windowMs, i), requests[i], windowMs), limit, requests[i].now)
  }

  lemma {:induction false} PruningIsUnseen<K>(buckets: map<K, Bucket>, now: int, key: K, later: int)
    requires now <= later
    ensures Live(Pruned(buckets, now), key, later) == Live(buckets, key, later)
  {
  }

  lemma {:induction false} SameLive<K>(requests: seq<Request<K>>, windowMs: int, n: nat, key: K, later: int)
    requires n <= |requests| && InOrder(requests)
    requires n > 0 ==> requests[n - 1].now <= later
    ensures Live(After(requests, windowMs, n), key, later) == Live(Remembered(requests, windowMs, n), key, later)
  {
    hide Pruned;
    if n > 0 {
      var r := requests[n - 1];
      var before := Plain(After(requests, windowMs, n - 1), windowMs, r.key, r.now);
      PruningIsUnseen(before, r.now, key, later);
      SameLive(requests, windowMs, n - 1, r.key, r.now);
      if key != r.key { SameLive(requests, windowMs, n - 1, key, later); }
    }
  }

  /** Refinement: under a clock that never runs backwards, pruning changes no verdict. */
  lemma {:induction false} PruningChangesNoVerdict<K>(requests: seq<Request<K>>, limit: nat, windowMs: int, i: nat)
    requires i < |requests| && InOrder(requests)
    ensures GuardVerdict(requests, limit, windowMs, i) == CounterVerdict(requests, limit, windowMs, i)
  {
    hide After, Remembered;
    SameLive(requests, windowMs, i, requests[i].key, requests[i].now);
  }

  // ---------- how many get through ----------

  predicate Admits<K(==)>(requests: seq<Request<K>>, limit: nat, windowMs: int, key: K, i: nat)
    requires i < |requests|
  {
    requests[i].key == key && GuardVerdict(requests, limit, windowMs, i) == Allowed
  }

  /** How many of the first `n` requests of the key are admitted at a time in [from, until). */
  function Admitted<K(==)>(requests: seq<Request<K>>, limit: nat, windowMs: int, key: K, from: int, until: int,
      n: nat): nat
    requires n <= |requests|
  {
    if n == 0 then 0
    else Admitted(requests, limit, windowMs, key, from, until, n - 1)
         + if Admits(requests, limit, windowMs, key, n - 1) && from <= requests[n - 1].now < until then 1 else 0
  }

  /** What the key's bucket says of the interval [from, from + windowMs). */
  predicate Bounded(known: bool, b: Bucket, limit: nat, windowMs: int, from: int, admitted: nat) {
    var start := b.resetsAt - windowMs;
    if !known then admitted == 0
    else if start < from then admitted <= Min(b.count, limit)
    else if start < from + windowMs then admitted <= limit + Min(b.count, limit)
    else admitted <= 2 * limit
  }

  function BucketOr0<K(==)>(buckets: map<K, Bucket>, key: K): Bucket {
    if key in buckets then buckets[key] else Bucket(0, 0)
  }

  lemma {:induction false} NoneYet<K>(requests: seq<Request<K>>, limit: nat, windowMs: int, key: K, from: int,
      until: int, n: nat)
    requires n <= |requests| && forall i :: 0 <= i < n && requests[i].key == key ==> requests[i].now < from
    ensures Admitted(requests, limit, windowMs, key, from, until, n) == 0
  {
    hide GuardVerdict;
    if n > 0 { NoneYet(requests, limit, windowMs, key, from, until, n - 1); }
  }

  /** A bucket's window has begun, and it covers every request of the key so far. */
  lemma {:induction false} WindowCovers<K>(requests: seq<Request<K>>, windowMs: int, key: K, n: nat, later: int)
    requires n <= |requests| && InOrder(requests) && windowMs > 0
    requires n > 0 ==> requests[n - 1].now <= later
    ensures var memory := Remembered(requests, windowMs, n);
            && (key in memory ==> memory[key].resetsAt - windowMs <= later)
            && (forall i :: 0 <= i < n && requests[i].key == key ==>
                   key in memory && requests[i].now < memory[key].resetsAt)
  {
    if n > 0 { WindowCovers(requests, windowMs, key, n - 1, requests[n - 1].now); }
  }

  /** The step of the bound: one more request of the key, counted in a live bucket or in a new one. */
  lemma {:induction false} BoundedStep(known: bool, b: Bucket, limit: nat, windowMs: int, from: int, admitted: nat,
      now: int)
    requires windowMs > 0 && Bounded(known, b, limit, windowMs, from, admitted)
    requires now < from ==> admitted == 0
    requires known ==> b.resetsAt - windowMs <= now
    ensures var next := Counted(if known && b.resetsAt > now then Some(b) else None, windowMs, now);
            var more := if next.count <= limit && from <= now < from + windowMs then 1 else 0;
            Bounded(true, next, limit, windowMs, from, admitted + more)
  {
  }

  lemma {:induction false} BoundedRun<K>(requests: seq<Request<K>>, limit: nat, windowMs: int, key: K, from: int,
      n: nat)
    requires n <= |requests| && InOrder(requests) && windowMs > 0
    ensures var memory := Remembered(requests, windowMs, n);
            Bounded(key in memory, BucketOr0(memory, key), limit, windowMs, from,
                Admitted(requests, limit, windowMs, key, from, from + windowMs, n))
  {
    hide Bounded, GuardVerdict, Counted;
    if n == 0 {
      NothingCounted(limit, windowMs, from);
    } else {
      var r := requests[n - 1];
      BoundedRun(requests, limit, windowMs, key, from, n - 1);
      PruningChangesNoVerdict(requests, limit, windowMs, n - 1);
      if r.key == key {
        var memory := Remembered(requests, windowMs, n - 1);
        if r.now < from { NoneYet(requests, limit, windowMs, key, from, from + windowMs, n - 1); }
        WindowCovers(requests, windowMs, key, n - 1, r.now);
        BoundedStep(key in memory, BucketOr0(memory, key), limit, windowMs, from, Admitted(requests, limit, windowMs,
            key, from, from + windowMs, n - 1), r.now);
      }
    }
  }

  lemma {:induction false} NothingCounted(limit: nat, windowMs: int, from: int)
    ensures Bounded(false, Bucket(0, 0), limit, windowMs, from, 0)
  {
  }

  lemma {:induction false} BoundedTwice(known: bool, b: Bucket, limit: nat, windowMs: int, from: int, admitted: nat)
    requires Bounded(known, b, limit, windowMs, from, admitted)
    ensures admitted <= 2 * limit
  {
  }

  /** In any interval of one window's length, wherever it starts, a key gets through at most twice
      the limit. */
  lemma {:induction false} AtMostTwice<K>(requests: seq<Request<K>>, limit: nat, windowMs: int, key: K, from: int)
    requires InOrder(requests) && windowMs > 0
    ensures Admitted(requests, limit, windowMs, key, from, from + windowMs, |requests|) <= 2 * limit
  {
    hide Bounded, Admitted, Remembered;
    BoundedRun(requests, limit, windowMs, key, from, |requests|);
    var memory := Remembered(requests, windowMs, |requests|);
    BoundedTwice(key in memory, BucketOr0(memory, key), limit, windowMs, from, Admitted(requests, limit, windowMs,
        key, from, from + windowMs, |requests|));
  }

  /** The key's window holds as many admitted requests as its bucket counts, up to the limit. */
  lemma {:induction false} WindowCount<K>(requests: seq<Request<K>>, limit: nat, windowMs: int, key: K, n: nat)
    requires n <= |requests| && InOrder(requests) && windowMs > 0 && key in Remembered(requests, windowMs, n)
    ensures var b := Remembered(requests, windowMs, n)[key];
            Admitted(requests, limit, windowMs, key, b.resetsAt - windowMs, b.resetsAt, n) == Min(b.count, limit)
  {
    hide GuardVerdict;
    var r, memory := requests[n - 1], Remembered(requests, windowMs, n - 1);
    WindowCovers(requests, windowMs, key, n - 1, r.now);
    PruningChangesNoVerdict(requests, limit, windowMs, n - 1);
    if r.key != key {
      WindowCount(requests, limit, windowMs, key, n - 1);
    } else if Live(memory, key, r.now) == None {
      NoneYet(requests, limit, windowMs, key, r.now, r.now + windowMs, n - 1);
    } else {
      WindowCount(requests, limit, windowMs, key, n - 1);
    }
  }

  /** What the limiter promises: a request is admitted exactly when fewer than the limit have been
      admitted in the window it falls in, a window that began at most one length ago. */
  lemma {:induction false} AdmittedIffRoom<K>(requests: seq<Request<K>>, limit: nat, windowMs: int, i: nat)
    requires i < |requests| && InOrder(requests) && windowMs > 0
    ensures var r := requests[i];
            var until := BucketOf(Remembered(requests, windowMs, i), r, windowMs).resetsAt;
            && until - windowMs <= r.now < until
            && (GuardVerdict(requests, limit, windowMs, i) == Allowed
               <==> Admitted(requests, limit, windowMs, r.key, until - windowMs, until, i) < limit)
  {
    hide GuardVerdict, Remembered, Admitted;
    var r, memory := requests[i], Remembered(requests, windowMs, i);
    WindowCovers(requests, windowMs, r.key, i, r.now);
    PruningChangesNoVerdict(requests, limit, windowMs, i);
    if Live(memory, r.key, r.now) == None {
      NoneYet(requests, limit, windowMs, r.key, r.now, r.now + windowMs, i);
    } else {
      WindowCount(requests, limit, windowMs, r.key, i);
    }
  }

  /** A rejected caller who waits the seconds it is told finds its window over. */
  lemma {:induction false} RetryAfterSuffices(bucket: Bucket, limit: nat, now: int)
    requires VerdictOn(bucket, limit, now).Rejected?
    ensures now + 1000 * VerdictOn(bucket, limit, now).retryAfterSeconds >= bucket.resetsAt
    ensures bucket.resetsAt > now ==>
        now + 1000 * (VerdictOn(bucket, limit, now).retryAfterSeconds - 1) < bucket.resetsAt
  {
  }

  lemma {:induction false} RememberedSince<K>(requests: seq<Request<K>>, windowMs: int, key: K, n: nat)
    returns (j: nat)
    requires n <= |requests| && key in Remembered(requests, windowMs, n)
    ensures j < n && requests[j].key == key
    ensures requests[j].now + windowMs == Remembered(requests, windowMs, n)[key].resetsAt
  {
    var r, before := requests[n - 1], Remembered(requests, windowMs, n - 1);
    if r.key == key && Live(before, key, r.now) == None {
      j := n - 1;
    } else {
      j := RememberedSince(requests, windowMs, key, n - 1);
    }
  }

  /** A window begins with a request: the one that found no window open, or this one. */
  lemma {:induction false} WindowBeginsAtRequest<K>(requests: seq<Request<K>>, windowMs: int, i: nat) returns (j: nat)
    requires i < |requests|
    ensures j <= i && requests[j].key == requests[i].key
    ensures BucketOf(Remembered(requests, windowMs, i), requests[i], windowMs).resetsAt == requests[j].now + windowMs
  {
    var r, before := requests[i], Remembered(requests, windowMs, i);
    if Live(before, r.key, r.now) == None {
      j := i;
    } else {
      j := RememberedSince(requests, windowMs, r.key, i);
    }
  }
}
