/**
 Dealing the elements of a list in turn: one queue per key, in order of first appearance, and one
 element of every queue per round. What is proved holds for any elements and any key function.
 */
module RoundRobin {
  import opened Basics

  // ---------- queues ----------

  /** The elements of one key among the first `n` of `cs`, in order. */
  function Among<C, K(==)>(keyOf: C -> K, key: K, cs: seq<C>, n: nat): (r: seq<C>)
    requires n <= |cs|
    ensures |r| <= n
  {
    if n == 0 then []
    else Among(keyOf, key, cs, n - 1) + if keyOf(cs[n - 1]) == key then [cs[n - 1]] else []
  }

  function Of<C, K(==)>(keyOf: C -> K, key: K, cs: seq<C>): seq<C> { Among(keyOf, key, cs, |cs|) }

  /** The keys among the first `n`, by first appearance. */
  function Keys<C, K(==)>(keyOf: C -> K, cs: seq<C>, n: nat): (keys: seq<K>)
    requires n <= |cs|
    ensures Distinct(keys)
  {
    if n == 0 then []
    else
      var before := Keys(keyOf, cs, n - 1);
      if keyOf(cs[n - 1]) in before then before else before + [keyOf(cs[n - 1])]
  }

  /** The set of the keys among the first `n`. */
  function KeySet<C, K(==)>(keyOf: C -> K, cs: seq<C>, n: nat): set<K>
    requires n <= |cs|
  {
    if n == 0 then {} else KeySet(keyOf, cs, n - 1) + {keyOf(cs[n - 1])}
  }

  lemma {:induction false} SizeWith<K>(s: set<K>, k: K)
    ensures |s + {k}| == if k in s then |s| else |s| + 1
  {
    if k in s { assert s + {k} == s; }
  }

  lemma {:induction false} KeyInBoth<C, K>(keyOf: C -> K, cs: seq<C>, n: nat, key: K)
    requires n <= |cs|
    ensures key in Keys(keyOf, cs, n) <==> key in KeySet(keyOf, cs, n)
  {
    if n > 0 { KeyInBoth(keyOf, cs, n - 1, key); }
  }

  lemma {:induction false} KeysAreDistinct<C, K>(keyOf: C -> K, cs: seq<C>, n: nat)
    requires n <= |cs|
    ensures |Keys(keyOf, cs, n)| == |KeySet(keyOf, cs, n)|
  {
    if n > 0 {
      KeysAreDistinct(keyOf, cs, n - 1);
      KeyInBoth(keyOf, cs, n - 1, keyOf(cs[n - 1]));
      SizeWith(KeySet(keyOf, cs, n - 1), keyOf(cs[n - 1]));
    }
  }

  /** One queue per key, holding that key's elements. */
  function Queues<C, K(==)>(keyOf: C -> K, cs: seq<C>): (queues: seq<seq<C>>)
    ensures |queues| == |Keys(keyOf, cs, |cs|)|
    ensures forall j :: 0 <= j < |queues| ==> queues[j] == Of(keyOf, Keys(keyOf, cs, |cs|)[j], cs)
  {
    var keys := Keys(keyOf, cs, |cs|);
    seq(|keys|, j requires 0 <= j < |keys| => Of(keyOf, keys[j], cs))
  }

  lemma {:induction false} AmongLeft<C, K>(keyOf: C -> K, key: K, a: seq<C>, b: seq<C>, n: nat)
    requires n <= |a|
    ensures Among(keyOf, key, a + b, n) == Among(keyOf, key, a, n)
  {
    if n > 0 { AmongLeft(keyOf, key, a, b, n - 1); }
  }

  lemma {:induction false} AmongRight<C, K>(keyOf: C -> K, key: K, a: seq<C>, b: seq<C>, n: nat)
    requires n <= |b|
    ensures Among(keyOf, key, a + b, |a| + n) == Of(keyOf, key, a) + Among(keyOf, key, b, n)
  {
    if n == 0 { AmongLeft(keyOf, key, a, b, |a|); } else { AmongRight(keyOf, key, a, b, n - 1); }
  }

  lemma {:induction false} OfConcat<C, K>(keyOf: C -> K, key: K, a: seq<C>, b: seq<C>)
    ensures Of(keyOf, key, a + b) == Of(keyOf, key, a) + Of(keyOf, key, b)
  {
    AmongRight(keyOf, key, a, b, |b|);
  }

  lemma {:induction false} OfParts<C, K>(keyOf: C -> K, key: K, a: seq<C>, b: seq<C>)
    ensures Of(keyOf, key, a) == [] ==> Of(keyOf, key, a + b) == Of(keyOf, key, b)
    ensures Of(keyOf, key, b) == [] ==> Of(keyOf, key, a + b) == Of(keyOf, key, a)
  {
    OfConcat(keyOf, key, a, b);
  }

  lemma {:induction false} AmongGrows<C, K>(keyOf: C -> K, key: K, cs: seq<C>, m: nat, n: nat)
    requires m <= n <= |cs|
    ensures |Among(keyOf, key, cs, m)| <= |Among(keyOf, key, cs, n)|
  {
    if m < n { AmongGrows(keyOf, key, cs, m, n - 1); }
  }

  lemma {:induction false} AmongNone<C, K>(keyOf: C -> K, key: K, cs: seq<C>, n: nat)
    requires n <= |cs| && forall i :: 0 <= i < n ==> keyOf(cs[i]) != key
    ensures Among(keyOf, key, cs, n) == []
  {
    if n > 0 { AmongNone(keyOf, key, cs, n - 1); }
  }

  lemma {:induction false} AmongKeepsKey<C, K>(keyOf: C -> K, key: K, cs: seq<C>, n: nat)
    requires n <= |cs|
    ensures forall i :: 0 <= i < |Among(keyOf, key, cs, n)| ==> keyOf(Among(keyOf, key, cs, n)[i]) == key
  {
    if n > 0 { AmongKeepsKey(keyOf, key, cs, n - 1); }
  }

  lemma {:induction false} KeysCover<C, K>(keyOf: C -> K, cs: seq<C>, n: nat)
    requires n <= |cs|
    ensures forall i :: 0 <= i < n ==> keyOf(cs[i]) in Keys(keyOf, cs, n)
  {
    if n > 0 { KeysCover(keyOf, cs, n - 1); }
  }

  lemma {:induction false} OfFront<C, K>(keyOf: C -> K, key: K, cs: seq<C>)
    requires |cs| > 0
    ensures Of(keyOf, key, cs) == (if keyOf(cs[0]) == key then [cs[0]] else []) + Of(keyOf, key, cs[1..])
  {
    assert cs == [cs[0]] + cs[1..];
    OfConcat(keyOf, key, [cs[0]], cs[1..]);
    assert Among(keyOf, key, [cs[0]], 0) == [];
  }

  lemma {:induction false} CountInQueue<C, K>(keyOf: C -> K, c: C, cs: seq<C>, n: nat)
    requires n <= |cs|
    ensures multiset(cs[..n])[c] == multiset(Among(keyOf, keyOf(c), cs, n))[c]
  {
    if n > 0 {
      CountInQueue(keyOf, c, cs, n - 1);
      var last := cs[n - 1];
      assert cs[..n] == cs[..n - 1] + [last];
      var queue := Among(keyOf, keyOf(c), cs, n - 1);
      assert Among(keyOf, keyOf(c), cs, n) == if keyOf(last) == keyOf(c) then queue + [last] else queue;
      hide Among;
      CountAppended(cs[..n - 1], last, c);
      CountAppended(queue, last, c);
    }
  }

  lemma {:induction false} CountAppended<C>(s: seq<C>, x: C, c: C)
    ensures multiset(s + [x])[c] == multiset(s)[c] + if x == c then 1 else 0
  {
  }

  // ---------- rounds ----------

  /** What a queue contributes to round `r`: its r-th element, if it has one. */
  function Turn<C>(queue: seq<C>, r: nat): seq<C> {
    if r < |queue| then [queue[r]] else []
  }

  /** The turns of the first `i` queues in round `r`. */
  function Turns<C>(queues: seq<seq<C>>, i: nat, r: nat): seq<C>
    requires i <= |queues|
  {
    if i == 0 then [] else Turns(queues, i - 1, r) + Turn(queues[i - 1], r)
  }

  function Round<C>(queues: seq<seq<C>>, r: nat): seq<C> { Turns(queues, |queues|, r) }

  function Longest<C>(queues: seq<seq<C>>, i: nat): (n: nat)
    requires i <= |queues|
    ensures forall j :: 0 <= j < i ==> |queues[j]| <= n
  {
    if i == 0 then 0 else Max(Longest(queues, i - 1), |queues[i - 1]|)
  }

  /** All rounds from `r` on. */
  function Rounds<C>(queues: seq<seq<C>>, r: nat): seq<C>
    decreases Longest(queues, |queues|) - r
  {
    if r >= Longest(queues, |queues|) then [] else Round(queues, r) + Rounds(queues, r + 1)
  }

  /** What is left of a queue after `r` rounds. */
  function Rest<C>(queue: seq<C>, r: nat): seq<C> { queue[Min(r, |queue|)..] }

  lemma {:induction false} TurnThenRest<C>(queue: seq<C>, r: nat)
    ensures Rest(queue, r) == Turn(queue, r) + Rest(queue, r + 1)
    ensures |Rest(queue, r)| == 0 ==> Turn(queue, r) == [] && Rest(queue, r + 1) == []
    ensures |Rest(queue, r)| > 0 ==> Turn(queue, r) == [Rest(queue, r)[0]] && Rest(queue, r + 1) == Rest(queue, r)[1..]
  {
  }

  /** The queues keep their keys apart. */
  predicate Sorted<C, K(==)>(keyOf: C -> K, keys: seq<K>, queues: seq<seq<C>>) {
    && |keys| == |queues| && Distinct(keys)
    && forall j, i :: 0 <= j < |queues| && 0 <= i < |queues[j]| ==> keyOf(queues[j][i]) == keys[j]
  }

  lemma {:induction false} QueuesSorted<C, K>(keyOf: C -> K, cs: seq<C>)
    ensures Sorted(keyOf, Keys(keyOf, cs, |cs|), Queues(keyOf, cs))
  {
    var keys := Keys(keyOf, cs, |cs|);
    forall j | 0 <= j < |keys|
      ensures forall i :: 0 <= i < |Queues(keyOf, cs)[j]| ==> keyOf(Queues(keyOf, cs)[j][i]) == keys[j]
    {
      AmongKeepsKey(keyOf, keys[j], cs, |cs|);
    }
  }

  lemma {:induction false} OfTurn<C, K>(keyOf: C -> K, keys: seq<K>, queues: seq<seq<C>>, i: nat, j: nat, r: nat)
    requires Sorted(keyOf, keys, queues) && i < |queues| && j < |queues|
    ensures Of(keyOf, keys[j], Turn(queues[i], r)) == if j == i then Turn(queues[j], r) else []
  {
    var turn := Turn(queues[i], r);
    if |turn| == 1 { assert Among(keyOf, keys[j], turn, 0) == []; }
  }

  /** In the turns of the first `i` queues, queue `j` has its turn exactly if it is one of them. */
  lemma {:induction false} OfTurns<C, K>(keyOf: C -> K, keys: seq<K>, queues: seq<seq<C>>, i: nat, j: nat, r: nat)
    requires Sorted(keyOf, keys, queues) && i <= |queues| && j < |queues|
    ensures Of(keyOf, keys[j], Turns(queues, i, r)) == if j < i then Turn(queues[j], r) else []
  {
    hide Among;
    if i > 0 {
      OfTurns(keyOf, keys, queues, i - 1, j, r);
      OfTurn(keyOf, keys, queues, i - 1, j, r);
      OfParts(keyOf, keys[j], Turns(queues, i - 1, r), Turn(queues[i - 1], r));
    }
  }

  /** The rounds from `r` on give exactly what is left of every queue, in its order. */
  lemma {:induction false} OfRounds<C, K>(keyOf: C -> K, keys: seq<K>, queues: seq<seq<C>>, j: nat, r: nat)
    requires Sorted(keyOf, keys, queues) && j < |queues|
    ensures Of(keyOf, keys[j], Rounds(queues, r)) == Rest(queues[j], r)
    decreases Longest(queues, |queues|) - r
  {
    hide Among;
    if r < Longest(queues, |queues|) {
      OfTurns(keyOf, keys, queues, |queues|, j, r);
      TurnThenRest(queues[j], r);
      OfRounds(keyOf, keys, queues, j, r + 1);
      OfConcat(keyOf, keys[j], Round(queues, r), Rounds(queues, r + 1));
    }
  }

  lemma {:induction false} TurnsFromQueues<C>(queues: seq<seq<C>>, i: nat, r: nat)
    requires i <= |queues|
    ensures forall c :: c in Turns(queues, i, r) ==> exists j :: 0 <= j < |queues| && c in queues[j]
  {
    if i > 0 { TurnsFromQueues(queues, i - 1, r); }
  }

  lemma {:induction false} RoundsFromQueues<C>(queues: seq<seq<C>>, r: nat)
    ensures forall c :: c in Rounds(queues, r) ==> exists j :: 0 <= j < |queues| && c in queues[j]
    decreases Longest(queues, |queues|) - r
  {
    if r < Longest(queues, |queues|) {
      TurnsFromQueues(queues, |queues|, r);
      RoundsFromQueues(queues, r + 1);
    }
  }

  /** Of the rounds from `r` on, a queue of length `n` has given all up to round m, and of round m
      at most its turn. */
  predicate StopsInRound(n: nat, r: nat, m: nat, given: nat) {
    Min(n, m) - Min(n, r) <= given <= Min(n, m + 1) - Min(n, r)
  }

  lemma {:induction false} StopsHere<C, K>(keyOf: C -> K, keys: seq<K>, queues: seq<seq<C>>, j: nat, r: nat, k: nat)
    requires Sorted(keyOf, keys, queues) && j < |queues| && r < Longest(queues, |queues|) && k <= |Round(queues, r)|
    ensures StopsInRound(|queues[j]|, r, r, |Among(keyOf, keys[j], Rounds(queues, r), k)|)
  {
    hide Among, Turns;
    OfTurns(keyOf, keys, queues, |queues|, j, r);
    AmongGrows(keyOf, keys[j], Round(queues, r), k, |Round(queues, r)|);
    AmongLeft(keyOf, keys[j], Round(queues, r), Rounds(queues, r + 1), k);
  }

  lemma {:induction false} StopsLater<C, K>(keyOf: C -> K, keys: seq<K>, queues: seq<seq<C>>, j: nat, r: nat, m: nat,
      k: nat)
    requires Sorted(keyOf, keys, queues) && j < |queues| && r < Longest(queues, |queues|) && r < m
    requires k <= |Rounds(queues, r + 1)|
    requires StopsInRound(|queues[j]|, r + 1, m, |Among(keyOf, keys[j], Rounds(queues, r + 1), k)|)
    ensures StopsInRound(|queues[j]|, r, m, |Among(keyOf, keys[j], Rounds(queues, r), |Round(queues, r)| + k)|)
  {
    hide Among, Turns;
    OfTurns(keyOf, keys, queues, |queues|, j, r);
    AmongRight(keyOf, keys[j], Round(queues, r), Rounds(queues, r + 1), k);
  }

  lemma {:induction false} RoundsOrNone<C>(queues: seq<seq<C>>, r: nat)
    ensures |Rounds(queues, r)|
         == if r >= Longest(queues, |queues|) then 0 else |Round(queues, r)| + |Rounds(queues, r + 1)|
  {
    hide Round;
  }

  lemma {:induction false} StopsAtEnd<C, K>(keyOf: C -> K, key: K, queue: seq<C>, cs: seq<C>, r: nat)
    ensures StopsInRound(|queue|, r, r, |Among(keyOf, key, cs, 0)|)
  {
  }

  /** Any prefix of the rounds from `r` on stops in some round `m`. */
  lemma {:induction false} PrefixLevel<C, K>(keyOf: C -> K, keys: seq<K>, queues: seq<seq<C>>, r: nat, k: nat)
    returns (m: nat)
    requires Sorted(keyOf, keys, queues) && k <= |Rounds(queues, r)|
    ensures m >= r
    ensures forall j :: 0 <= j < |queues| ==>
        StopsInRound(|queues[j]|, r, m, |Among(keyOf, keys[j], Rounds(queues, r), k)|)
    decreases Longest(queues, |queues|) - r
  {
    RoundsOrNone(queues, r);
    assert |keys| == |queues|;
    hide Among, Rounds, Round, Sorted, StopsInRound;
    var here := |Round(queues, r)|;
    if r >= Longest(queues, |queues|) {
      m := r;
      forall j | 0 <= j < |queues| ensures StopsInRound(|queues[j]|, r, m,
          |Among(keyOf, keys[j], Rounds(queues, r), k)|) {
        StopsAtEnd(keyOf, keys[j], queues[j], Rounds(queues, r), r);
      }
    } else if k <= here {
      m := r;
      forall j | 0 <= j < |queues| ensures StopsInRound(|queues[j]|, r, m,
          |Among(keyOf, keys[j], Rounds(queues, r), k)|) {
        StopsHere(keyOf, keys, queues, j, r, k);
      }
    } else {
      m := PrefixLevel(keyOf, keys, queues, r + 1, k - here);
      forall j | 0 <= j < |queues| ensures StopsInRound(|queues[j]|, r, m,
          |Among(keyOf, keys[j], Rounds(queues, r), k)|) {
        StopsLater(keyOf, keys, queues, j, r, m, k - here);
      }
    }
  }

  // ---------- the loops ----------

  /** The map holds, for the first `i` keys, what is left after round `r`, and for the others what
      is left before it. */
  ghost predicate Dealt<C, K>(keys: seq<K>, queues: seq<seq<C>>, left: map<K, seq<C>>, i: nat, r: nat) {
    && |keys| == |queues|
    && forall j :: 0 <= j < |keys| ==> keys[j] in left && left[keys[j]] == Rest(queues[j], if j < i then r + 1 else r)
  }

  lemma {:induction false} DealOne<C, K>(keys: seq<K>, queues: seq<seq<C>>, left: map<K, seq<C>>, i: nat, r: nat)
    requires Distinct(keys) && i < |keys| && Dealt(keys, queues, left, i, r)
    ensures keys[i] in left
    ensures var queue := left[keys[i]];
            && Turn(queues[i], r) == (if |queue| > 0 then [queue[0]] else [])
            && Dealt(keys, queues, if |queue| > 0 then left[keys[i] := queue[1..]] else left, i + 1, r)
  {
    TurnThenRest(queues[i], r);
  }

  /** The map holds one queue per key among the first `n`, with the elements of that key. */
  ghost predicate Grouped<C, K>(keyOf: C -> K, cs: seq<C>, n: nat, queues: map<K, seq<C>>)
    requires n <= |cs|
  {
    && (forall k :: k in queues ==> k in Keys(keyOf, cs, n) && queues[k] == Among(keyOf, k, cs, n))
    && (forall k :: k in Keys(keyOf, cs, n) ==> k in queues)
  }

  lemma {:induction false} GroupedNone<C, K>(keyOf: C -> K, cs: seq<C>)
    ensures Grouped(keyOf, cs, 0, map[])
  {
  }

  lemma {:induction false} GroupedIsDealt<C, K>(keyOf: C -> K, cs: seq<C>, queues: map<K, seq<C>>)
    requires Grouped(keyOf, cs, |cs|, queues)
    ensures Dealt(Keys(keyOf, cs, |cs|), Queues(keyOf, cs), queues, 0, 0)
  {
    hide Keys, Among;
  }

  lemma {:induction false} GroupOne<C, K>(keyOf: C -> K, cs: seq<C>, n: nat, queues: map<K, seq<C>>)
    requires n < |cs| && Grouped(keyOf, cs, n, queues)
    ensures var key := keyOf(cs[n]);
            && Keys(keyOf, cs, n + 1) == Keys(keyOf, cs, n) + (if key in queues then [] else [key])
            && Grouped(keyOf, cs, n + 1, queues[key := (if key in queues then queues[key] else []) + [cs[n]]])
  {
    var key := keyOf(cs[n]);
    if key !in queues {
      KeysCover(keyOf, cs, n);
      AmongNone(keyOf, key, cs, n);
    }
  }

  /** The first loop: one queue per key, in order of first appearance. */
  method Group<C, K(==)>(keyOf: C -> K, sorted: seq<C>) returns (tenantOrder: seq<K>, queues: map<K, seq<C>>)
    ensures tenantOrder == Keys(keyOf, sorted, |sorted|)
    ensures Dealt(tenantOrder, Queues(keyOf, sorted), queues, 0, 0)
  {
    hide Among, Grouped, Queues, Dealt;
    tenantOrder, queues := [], map[];
    GroupedNone(keyOf, sorted);
    for i := 0 to |sorted|
      invariant tenantOrder == Keys(keyOf, sorted, i) && Grouped(keyOf, sorted, i, queues)
    {
      GroupOne(keyOf, sorted, i, queues);
      hide Keys;
      ghost var before := queues;
      var key := keyOf(sorted[i]);
      if key !in queues {
        queues := queues[key := []];
        tenantOrder := tenantOrder + [key];
      }
      queues := queues[key := queues[key] + [sorted[i]]];
      assert queues == before[key := (if key in before then before[key] else []) + [sorted[i]]];
    }
    GroupedIsDealt(keyOf, sorted, queues);
  }

  /** One pass of the inner loop: every queue that has an element left gives its first. */
  method Deal<C, K(==)>(tenantOrder: seq<K>, queues: map<K, seq<C>>, ghost whole: seq<seq<C>>, ghost r: nat)
    returns (round: seq<C>, left: map<K, seq<C>>)
    requires Distinct(tenantOrder) && Dealt(tenantOrder, whole, queues, 0, r)
    ensures round == Round(whole, r)
    ensures Dealt(tenantOrder, whole, left, 0, r + 1)
  {
    round, left := [], queues;
    for i := 0 to |tenantOrder|
      invariant round == Turns(whole, i, r)
      invariant Dealt(tenantOrder, whole, left, i, r)
    {
      DealOne(tenantOrder, whole, left, i, r);
      var key := tenantOrder[i];
      if |left[key]| > 0 {
        round := round + [left[key][0]];
        left := left[key := left[key][1..]];
      }
    }
  }

  /** A round is dealt as long as something is missing, and it never comes out empty. */
  lemma {:induction false} DealtSoFar<C>(queues: seq<seq<C>>, r: nat, dealt: seq<C>, all: seq<C>)
    requires dealt + Rounds(queues, r) == all
    ensures |dealt| < |all| ==> |Round(queues, r)| > 0 && (dealt + Round(queues, r)) + Rounds(queues, r + 1) == all
    ensures |dealt| >= |all| ==> dealt == all
  {
    if |dealt| < |all| { RoundNonEmpty(queues, |queues|, r); }
  }

  lemma {:induction false} RoundNonEmpty<C>(queues: seq<seq<C>>, i: nat, r: nat)
    requires i <= |queues| && r < Longest(queues, i)
    ensures |Turns(queues, i, r)| > 0
  {
    if r >= |queues[i - 1]| { RoundNonEmpty(queues, i - 1, r); }
  }

  // ---------- who comes first ----------

  /** The first element with the key stands at `p`. */
  predicate FirstAt<C, K(==)>(keyOf: C -> K, cs: seq<C>, key: K, p: nat) {
    p < |cs| && keyOf(cs[p]) == key && forall q :: 0 <= q < p ==> keyOf(cs[q]) != key
  }

  lemma {:induction false} KeyOccurs<C, K>(keyOf: C -> K, cs: seq<C>, n: nat, key: K) returns (p: nat)
    requires n <= |cs| && key in Keys(keyOf, cs, n)
    ensures p < n && keyOf(cs[p]) == key
  {
    if key in Keys(keyOf, cs, n - 1) { p := KeyOccurs(keyOf, cs, n - 1, key); } else { p := n - 1; }
  }

  /** The keys are listed in the order of their first elements. */
  lemma {:induction false} KeysByAppearance<C, K>(keyOf: C -> K, cs: seq<C>, n: nat, i: nat, j: nat, p: nat, q: nat)
    requires n <= |cs| && i < j < |Keys(keyOf, cs, n)|
    requires FirstAt(keyOf, cs, Keys(keyOf, cs, n)[i], p) && FirstAt(keyOf, cs, Keys(keyOf, cs, n)[j], q)
    ensures p < q
  {
    var before := Keys(keyOf, cs, n - 1);
    if j < |before| {
      KeysByAppearance(keyOf, cs, n - 1, i, j, p, q);
    } else {
      KeysCover(keyOf, cs, n - 1);
      var r := KeyOccurs(keyOf, cs, n - 1, before[i]);
      assert p <= r && q >= n - 1;
    }
  }

  lemma {:induction false} QueueNotEmpty<C, K>(keyOf: C -> K, cs: seq<C>, n: nat, key: K)
    requires n <= |cs| && key in Keys(keyOf, cs, n)
    ensures |Among(keyOf, key, cs, n)| > 0
  {
    if keyOf(cs[n - 1]) != key { QueueNotEmpty(keyOf, cs, n - 1, key); }
  }

  lemma {:induction false} TurnsAreHeads<C>(queues: seq<seq<C>>, i: nat)
    requires i <= |queues| && forall j :: 0 <= j < |queues| ==> |queues[j]| > 0
    ensures |Turns(queues, i, 0)| == i && forall j :: 0 <= j < i ==> Turns(queues, i, 0)[j] == queues[j][0]
  {
    if i > 0 { TurnsAreHeads(queues, i - 1); }
  }

  /** The first round gives the head of every queue, in the order of the queues. */
  lemma {:induction false} HeadsFirst<C>(queues: seq<seq<C>>, j: nat)
    requires j < |queues| && forall i :: 0 <= i < |queues| ==> |queues[i]| > 0
    ensures j < |Rounds(queues, 0)| && Rounds(queues, 0)[j] == queues[j][0]
  {
    TurnsAreHeads(queues, |queues|);
    assert Longest(queues, |queues|) >= |queues[j]| > 0;
    assert Rounds(queues, 0) == Round(queues, 0) + Rounds(queues, 1);
    hide Rounds;
  }

  /** The first element of a queue is the first one with its key. */
  lemma {:induction false} HeadIs<C, K>(keyOf: C -> K, key: K, cs: seq<C>, n: nat) returns (p: nat)
    requires n <= |cs| && |Among(keyOf, key, cs, n)| > 0
    ensures p < n && FirstAt(keyOf, cs, key, p) && Among(keyOf, key, cs, n)[0] == cs[p]
  {
    if |Among(keyOf, key, cs, n - 1)| > 0 {
      p := HeadIs(keyOf, key, cs, n - 1);
    } else {
      p := n - 1;
      NoneAmong(keyOf, key, cs, n - 1);
    }
  }

  lemma {:induction false} NoneAmong<C, K>(keyOf: C -> K, key: K, cs: seq<C>, n: nat)
    requires n <= |cs| && |Among(keyOf, key, cs, n)| == 0
    ensures forall q :: 0 <= q < n ==> keyOf(cs[q]) != key
  {
    if n > 0 { NoneAmong(keyOf, key, cs, n - 1); }
  }
}
