/**
 The monthly result (DRE): real order fees, spread over the items of the order in whole cents with the
 remainder on the last, and their summary.
 */
module DreFees {
  import opened Basics
  import opened RoundRobin
  import opened Wrappers

  /** Amounts are exact; the one rounding modelled is that of a share to two places, half away from zero. */
  datatype Snapshot = Snapshot(
    orderId: string,
    gross: Option<real>,
    net: Option<real>,
    grossRevenue: real,
    discount: real,
    netRevenue: real,
    cmv: real,
    platformFee: real,
    taxAmount: real,
    paymentFee: real,
    grossProfit: real
  )

  function OrderOf(s: Snapshot): string { s.orderId }

  // ---------- rounding ----------

  function RoundCents(x: real): real {
    if x >= 0.0 then (x * 100.0 + 0.5).Floor as real / 100.0
    else -((-x * 100.0 + 0.5).Floor as real / 100.0)
  }

  predicate WholeCents(x: real) { (x * 100.0).Floor as real == x * 100.0 }

  lemma {:induction false} RoundIsNear(x: real)
    ensures -0.005 <= RoundCents(x) - x <= 0.005
  {
  }

  lemma {:induction false} RoundIsWhole(x: real)
    ensures WholeCents(RoundCents(x))
  {
    var k := if x >= 0.0 then (x * 100.0 + 0.5).Floor else -((-x * 100.0 + 0.5).Floor);
    assert RoundCents(x) * 100.0 == k as real;
  }

  /** The nearest amount in whole cents, and of two that are equally near the one away from zero. */
  lemma {:induction false} RoundsAwayFromZero(x: real, y: real)
    requires WholeCents(y)
    ensures -0.005 < y - x < 0.005 ==> RoundCents(x) == y
    ensures y - x == 0.005 && x > 0.0 ==> RoundCents(x) == y
    ensures y - x == -0.005 && x < 0.0 ==> RoundCents(x) == y
  {
    var k := (y * 100.0).Floor;
    assert y == k as real / 100.0;
    NearestWhole(x * 100.0 + 0.5, k);
    NearestWhole(-x * 100.0 + 0.5, -k);
  }

  lemma {:induction false} NearestWhole(z: real, k: int)
    ensures k as real <= z < k as real + 1.0 ==> z.Floor == k
  {
  }

  // ---------- one order ----------

  /** The order's payment values are those its first item carries. */
  predicate HasRealFee(items: seq<Snapshot>)
    requires |items| > 0
  {
    items[0].gross.Some? && items[0].net.Some?
  }

  function RealFee(items: seq<Snapshot>): (fee: real)
    requires |items| > 0 && HasRealFee(items)
    ensures fee >= 0.0
  {
    var fee := items[0].gross.value - items[0].net.value;
    if fee > 0.0 then fee else 0.0
  }

  /** The sum of `f` over the first `n`. */
  function Sum(f: Snapshot -> real, s: seq<Snapshot>, n: nat): real
    requires n <= |s|
  {
    if n == 0 then 0.0 else Sum(f, s, n - 1) + f(s[n - 1])
  }

  function Total(f: Snapshot -> real, s: seq<Snapshot>): real { Sum(f, s, |s|) }

  function Net(s: Snapshot): real { s.netRevenue }

  function Base(items: seq<Snapshot>): real { Total(Net, items) }

  function Part(fee: real, amount: real, base: real): real
    requires base > 0.0
  {
    fee * amount / base
  }

  lemma {:induction false} PartSum(fee: real, a: real, b: real, base: real)
    requires base > 0.0
    ensures Part(fee, a, base) + Part(fee, b, base) == Part(fee, a + b, base)
  {
  }

  lemma {:induction false} PartOfAll(fee: real, base: real)
    requires base > 0.0
    ensures Part(fee, base, base) == fee && Part(fee, 0.0, base) == 0.0
  {
  }

  /** The item's exact proportion of the fee. */
  function Exact(items: seq<Snapshot>, i: nat): real
    requires i < |items| && HasRealFee(items) && Base(items) > 0.0
  {
    Part(RealFee(items), items[i].netRevenue, Base(items))
  }

  /** What an item that is not the last one takes. */
  function Rounded(items: seq<Snapshot>, i: nat): real
    requires i < |items| && HasRealFee(items)
  {
    if Base(items) > 0.0 then RoundCents(Exact(items, i)) else 0.0
  }

  function Spent(items: seq<Snapshot>, n: nat): real
    requires n <= |items| && |items| > 0 && HasRealFee(items)
  {
    if n == 0 then 0.0 else Spent(items, n - 1) + Rounded(items, n - 1)
  }

  function Share(items: seq<Snapshot>, i: nat): real
    requires i < |items| && HasRealFee(items)
  {
    if i == |items| - 1 then RealFee(items) - Spent(items, i) else Rounded(items, i)
  }

  function Adjust(s: Snapshot, share: real): Snapshot {
    s.(platformFee := 0.0, paymentFee := share, grossProfit := s.grossProfit + s.platformFee + s.paymentFee - share)
  }

  /** The first `n` items of an order as they leave the calculation. */
  function AdjustItems(items: seq<Snapshot>, n: nat): (adjusted: seq<Snapshot>)
    requires n <= |items| && |items| > 0
    ensures |adjusted| == n
  {
    if n == 0 then []
    else
      var last := if HasRealFee(items) then Adjust(items[n - 1], Share(items, n - 1)) else items[n - 1];
      AdjustItems(items, n - 1) + [last]
  }

  function AdjustOrder(items: seq<Snapshot>): seq<Snapshot>
    requires |items| > 0
  {
    AdjustItems(items, |items|)
  }

  // ---------- what becomes of one order ----------

  function Fees(s: Snapshot): real { s.platformFee + s.paymentFee }

  /** Everything about an item but which fees it bears; its profit before fees included. */
  predicate SameButFees(a: Snapshot, b: Snapshot) {
    a == b.(platformFee := a.platformFee, paymentFee := a.paymentFee, grossProfit := b.grossProfit + Fees(b) - Fees(a))
  }

  lemma {:induction false} ItemsKept(items: seq<Snapshot>, n: nat)
    requires n <= |items| && |items| > 0
    ensures forall i :: 0 <= i < n ==> SameButFees(AdjustItems(items, n)[i], items[i])
    ensures HasRealFee(items) ==> forall i :: 0 <= i < n ==>
        AdjustItems(items, n)[i].platformFee == 0.0 && AdjustItems(items, n)[i].paymentFee == Share(items, i)
  {
    hide Share;
    if n > 0 { ItemsKept(items, n - 1); }
  }

  lemma {:induction false} FeesOfItems(items: seq<Snapshot>, n: nat)
    requires n <= |items| && |items| > 0
    ensures !HasRealFee(items) ==> Total(Fees, AdjustItems(items, n)) == Sum(Fees, items, n)
    ensures HasRealFee(items) && n < |items| ==> Total(Fees, AdjustItems(items, n)) == Spent(items, n)
    ensures HasRealFee(items) && n == |items| ==> Total(Fees, AdjustItems(items, n)) == RealFee(items)
  {
    hide RealFee, Rounded;
    if n > 0 {
      FeesOfItems(items, n - 1);
      SumPrefix(Fees, AdjustItems(items, n - 1), AdjustItems(items, n), n - 1);
    }
  }

  lemma {:induction false} SumPrefix(f: Snapshot -> real, a: seq<Snapshot>, b: seq<Snapshot>, n: nat)
    requires n <= |a| && n <= |b| && a[..n] == b[..n]
    ensures Sum(f, a, n) == Sum(f, b, n)
  {
    if n > 0 {
      assert a[..n][..n - 1] == a[..n - 1] && b[..n][..n - 1] == b[..n - 1];
      assert a[n - 1] == a[..n][n - 1] == b[..n][n - 1] == b[n - 1];
      SumPrefix(f, a, b, n - 1);
    }
  }

  /** The items of an order bear its real fee exactly, to the cent, whatever the rounding did: what was
      paid less what was received, if the first item says both, and never less than nothing. */
  lemma {:induction false} OrderFees(items: seq<Snapshot>)
    requires |items| > 0
    ensures Total(Fees, AdjustOrder(items)) == if HasRealFee(items) then RealFee(items) else Total(Fees, items)
    ensures HasRealFee(items) <==> items[0].gross.Some? && items[0].net.Some?
    ensures HasRealFee(items) ==>
        Total(Fees, AdjustOrder(items)) == RealMax(items[0].gross.value - items[0].net.value, 0.0)
    ensures !HasRealFee(items) ==> AdjustOrder(items) == items
  {
    FeesOfItems(items, |items|);
    if !HasRealFee(items) { UnpaidStays(items, |items|); }
  }

  lemma {:induction false} UnpaidStays(items: seq<Snapshot>, n: nat)
    requires n <= |items| && |items| > 0 && !HasRealFee(items)
    ensures AdjustItems(items, n) == items[..n]
  {
    if n > 0 {
      UnpaidStays(items, n - 1);
      assert items[..n] == items[..n - 1] + [items[n - 1]];
    }
  }

  // ---------- how far a share is from its proportion ----------

  lemma {:induction false} SpentIsNear(items: seq<Snapshot>, n: nat)
    requires n <= |items| && |items| > 0 && HasRealFee(items) && Base(items) > 0.0
    ensures var exact := Part(RealFee(items), Sum(Net, items, n), Base(items));
            -0.005 * (n as real) <= Spent(items, n) - exact <= 0.005 * (n as real)
  {
    hide RealFee, Base, RoundCents, Part;
    if n == 0 {
      PartOfAll(RealFee(items), Base(items));
    } else {
      SpentIsNear(items, n - 1);
      RoundIsNear(Exact(items, n - 1));
      PartSum(RealFee(items), Sum(Net, items, n - 1), items[n - 1].netRevenue, Base(items));
    }
  }

  /** A share is within half a cent of its exact proportion, and the last one, which takes the
      remainder, within half a cent for every other item. */
  lemma {:induction false} ShareIsNear(items: seq<Snapshot>, i: nat)
    requires i < |items| && HasRealFee(items) && Base(items) > 0.0
    ensures var error := if i < |items| - 1 then 0.005 else 0.005 * (i as real);
            -error <= Share(items, i) - Exact(items, i) <= error
  {
    hide RealFee, RoundCents, Part;
    if i < |items| - 1 {
      RoundIsNear(Exact(items, i));
    } else {
      SpentIsNear(items, i);
      PartSum(RealFee(items), Sum(Net, items, i), items[i].netRevenue, Base(items));
      PartOfAll(RealFee(items), Base(items));
    }
  }

  /** Without positive revenue the last item bears the whole fee. */
  lemma {:induction false} NothingToSplitBy(items: seq<Snapshot>, i: nat)
    requires i < |items| && HasRealFee(items) && Base(items) <= 0.0
    ensures Share(items, i) == if i == |items| - 1 then RealFee(items) else 0.0
  {
    hide RealFee, Base;
    NothingSpent(items, i);
  }

  lemma {:induction false} NothingSpent(items: seq<Snapshot>, n: nat)
    requires n <= |items| && |items| > 0 && HasRealFee(items) && Base(items) <= 0.0
    ensures Spent(items, n) == 0.0
  {
    hide RealFee, Base;
    if n > 0 { NothingSpent(items, n - 1); }
  }

  lemma {:induction false} SpentIsWhole(items: seq<Snapshot>, n: nat)
    requires n <= |items| && |items| > 0 && HasRealFee(items)
    ensures WholeCents(Spent(items, n))
  {
    hide RealFee, Base, Exact, RoundCents, WholeCents;
    if n == 0 {
      ZeroIsWhole();
    } else {
      SpentIsWhole(items, n - 1);
      if Base(items) > 0.0 { RoundIsWhole(Exact(items, n - 1)); } else { ZeroIsWhole(); }
      WholeSum(Spent(items, n - 1), Rounded(items, n - 1));
    }
  }

  lemma {:induction false} ZeroIsWhole()
    ensures WholeCents(0.0)
  {
    assert 0.0 * 100.0 == 0 as real;
  }

  lemma {:induction false} FloorOfWhole(k: int)
    ensures (k as real).Floor == k
  {
  }

  lemma {:induction false} WholeSum(a: real, b: real)
    requires WholeCents(a) && WholeCents(b)
    ensures WholeCents(a + b)
  {
    var j, k := (a * 100.0).Floor, (b * 100.0).Floor;
    assert (a + b) * 100.0 == (j + k) as real;
    FloorOfWhole(j + k);
  }

  lemma {:induction false} WholeDifference(a: real, b: real)
    requires WholeCents(a) && WholeCents(b)
    ensures WholeCents(a - b)
  {
    var j, k := (a * 100.0).Floor, (b * 100.0).Floor;
    assert (a - b) * 100.0 == (j - k) as real;
    FloorOfWhole(j - k);
  }

  /** A fee in whole cents is split into whole cents. */
  lemma {:induction false} SharesAreWhole(items: seq<Snapshot>, i: nat)
    requires i < |items| && HasRealFee(items) && WholeCents(RealFee(items))
    ensures WholeCents(Share(items, i))
  {
    hide RealFee, Base, Exact, RoundCents, WholeCents;
    if i == |items| - 1 {
      SpentIsWhole(items, i);
      WholeDifference(RealFee(items), Spent(items, i));
    } else if Base(items) > 0.0 {
      RoundIsWhole(Exact(items, i));
    } else {
      ZeroIsWhole();
    }
  }

  // ---------- when no share is negative ----------

  /** What a sales order looks like: a real fee in whole cents and no negative revenue. */
  predicate Plain(items: seq<Snapshot>) {
    && |items| > 0 && HasRealFee(items) && WholeCents(RealFee(items))
    && forall i :: 0 <= i < |items| ==> items[i].netRevenue >= 0.0
  }

  lemma {:induction false} PartGrows(fee: real, a: real, b: real, base: real)
    requires base > 0.0 && fee >= 0.0 && 0.0 <= a <= b
    ensures 0.0 <= Part(fee, a, base) <= Part(fee, b, base)
  {
    NotNegative(fee, a);
    NotNegative(fee, b - a);
    assert fee * b == fee * a + fee * (b - a);
    DivideGrows(fee * a, fee * b, base);
  }

  lemma {:induction false} DivideGrows(x: real, y: real, base: real)
    requires base > 0.0 && 0.0 <= x <= y
    ensures 0.0 <= x / base <= y / base
  {
  }

  lemma {:induction false} RoundGrows(x: real, y: real)
    requires 0.0 <= x <= y
    ensures 0.0 <= RoundCents(x) <= RoundCents(y)
  {
    FloorIsMonotone(0.5, x * 100.0 + 0.5);
    FloorIsMonotone(x * 100.0 + 0.5, y * 100.0 + 0.5);
  }

  lemma {:induction false} RoundOfWhole(x: real)
    requires x >= 0.0 && WholeCents(x)
    ensures RoundCents(x) == x
  {
    var k := (x * 100.0).Floor;
    assert (x * 100.0 + 0.5).Floor == k;
  }

  lemma {:induction false} NetsAddUp(items: seq<Snapshot>, i: nat, n: nat)
    requires i < n <= |items| && forall k :: 0 <= k < |items| ==> items[k].netRevenue >= 0.0
    ensures 0.0 <= items[i].netRevenue <= Sum(Net, items, n)
  {
    if n > i + 1 { NetsAddUp(items, i, n - 1); } else { SumNotNegative(items, n - 1); }
  }

  lemma {:induction false} SumNotNegative(items: seq<Snapshot>, n: nat)
    requires n <= |items| && forall k :: 0 <= k < |items| ==> items[k].netRevenue >= 0.0
    ensures Sum(Net, items, n) >= 0.0
  {
    if n > 0 { SumNotNegative(items, n - 1); }
  }

  /** What an item takes before the last one is between nothing and the whole fee. */
  lemma {:induction false} RoundedIsWithinFee(items: seq<Snapshot>, i: nat)
    requires Plain(items) && i < |items|
    ensures 0.0 <= Rounded(items, i) <= RealFee(items)
  {
    hide RealFee, RoundCents, Part, WholeCents;
    if Base(items) > 0.0 {
      var fee, base := RealFee(items), Base(items);
      NetsAddUp(items, i, |items|);
      PartGrows(fee, items[i].netRevenue, base, base);
      PartOfAll(fee, base);
      RoundGrows(Exact(items, i), fee);
      RoundOfWhole(fee);
    }
  }

  /** One or two items never get a negative share, and no item but the last one ever does. */
  lemma {:induction false} ShareNotNegative(items: seq<Snapshot>, i: nat)
    requires Plain(items) && i < |items| && (|items| <= 2 || i < |items| - 1)
    ensures Share(items, i) >= 0.0
  {
    RoundedIsWithinFee(items, if i < |items| - 1 then i else 0);
    hide RealFee, Rounded, WholeCents;
    assert Spent(items, 0) == 0.0;
  }

  /** An order of `n` items: two of equal revenue, the others given away, and a fee of one cent. */
  function GiveawayOrder(n: nat): (items: seq<Snapshot>)
    ensures |items| == n
    ensures forall k :: 0 <= k < n ==> items[k].netRevenue == (if k < 2 then 1.0 else 0.0)
    ensures n > 0 ==> items[0].gross == Some(2.0) && items[0].net == Some(1.99)
  {
    seq(n, k requires k >= 0 =>
      var price := if k < 2 then 1.0 else 0.0;
      Snapshot("order", Some(2.0), Some(1.99), price, 0.0, price, 0.0, 0.0, 0.0, 0.0, price))
  }

  lemma {:induction false} GiveawaySums(n: nat, m: nat)
    requires m <= n
    ensures Sum(Net, GiveawayOrder(n), m) == (if m >= 2 then 2.0 else m as real)
  {
    hide GiveawayOrder;
    if m > 0 { GiveawaySums(n, m - 1); }
  }

  lemma {:induction false} OneCent()
    ensures RoundCents(Part(0.01, 1.0, 2.0)) == 0.01 && RoundCents(Part(0.01, 0.0, 2.0)) == 0.0
  {
    assert Part(0.01, 1.0, 2.0) == 0.005 && Part(0.01, 0.0, 2.0) == 0.0;
  }

  lemma {:induction false} GiveawaySpends(n: nat, m: nat)
    requires 2 <= n && m <= n
    ensures HasRealFee(GiveawayOrder(n)) && RealFee(GiveawayOrder(n)) == 0.01
    ensures Spent(GiveawayOrder(n), m) == (if m >= 2 then 0.02 else 0.01 * (m as real))
  {
    hide GiveawayOrder, RoundCents, Part;
    if m > 0 {
      GiveawaySpends(n, m - 1);
      GiveawaySums(n, n);
      OneCent();
    }
  }

  lemma {:induction false} GiveawayIsPlain(n: nat)
    requires n >= 2
    ensures Plain(GiveawayOrder(n))
  {
    hide GiveawayOrder;
    GiveawaySpends(n, 0);
    assert WholeCents(0.01) by { assert 0.01 * 100.0 == 1 as real; }
  }

  /** From three items on, rounding up two half cents leaves the last item with minus one cent. */
  lemma {:induction false} ShareMayBeNegative(n: nat)
    requires n >= 3
    ensures Plain(GiveawayOrder(n)) && Share(GiveawayOrder(n), n - 1) == -0.01
  {
    GiveawayIsPlain(n);
    GiveawaySpends(n, n - 1);
    hide GiveawayOrder, RealFee, Plain;
  }

  /** The exact size: every share of every plain order of n items is non-negative if and only if n
      is at most two. */
  lemma {:induction false} SharesNotNegativeIff(n: nat)
    ensures (forall items, i :: |items| == n && Plain(items) && 0 <= i < n ==> Share(items, i) >= 0.0) <==> n <= 2
  {
    if n <= 2 {
      forall items, i | |items| == n && Plain(items) && 0 <= i < n ensures Share(items, i) >= 0.0 {
        ShareNotNegative(items, i);
      }
    } else {
      ShareMayBeNegative(n);
    }
  }

  /** And for any order: a last item whose own proportion covers half a cent for every other item
      gets no negative share. */
  lemma {:induction false} EnoughForRounding(items: seq<Snapshot>)
    requires |items| > 0 && HasRealFee(items) && Base(items) > 0.0
    requires Exact(items, |items| - 1) >= 0.005 * ((|items| - 1) as real)
    ensures Share(items, |items| - 1) >= 0.0
  {
    ShareIsNear(items, |items| - 1);
    hide Share, Exact, Base;
  }

  // ---------- all orders ----------

  /** The items of the orders, in order of each order's first item. */
  function Orders(snapshots: seq<Snapshot>): seq<seq<Snapshot>> { Queues(OrderOf, snapshots) }

  ghost predicate NonEmpty(orders: seq<seq<Snapshot>>) { forall j :: 0 <= j < |orders| ==> |orders[j]| > 0 }

  lemma {:induction false} OrdersNonEmpty(cs: seq<Snapshot>)
    ensures NonEmpty(Orders(cs))
  {
    var keys := Keys(OrderOf, cs, |cs|);
    forall j | 0 <= j < |keys| ensures |Orders(cs)[j]| > 0 { QueueNotEmpty(OrderOf, cs, |cs|, keys[j]); }
  }

  /** What the first `n` orders contribute. */
  function Adjusted(orders: seq<seq<Snapshot>>, n: nat): seq<Snapshot>
    requires n <= |orders| && NonEmpty(orders)
  {
    if n == 0 then [] else Adjusted(orders, n - 1) + AdjustOrder(orders[n - 1])
  }

  function RealFees(orders: seq<seq<Snapshot>>, n: nat): real
    requires n <= |orders| && NonEmpty(orders)
  {
    if n == 0 then 0.0
    else RealFees(orders, n - 1) + if HasRealFee(orders[n - 1]) then RealFee(orders[n - 1]) else 0.0
  }

  function EstimatedFees(orders: seq<seq<Snapshot>>, n: nat): real
    requires n <= |orders| && NonEmpty(orders)
  {
    if n == 0 then 0.0
    else EstimatedFees(orders, n - 1) + if HasRealFee(orders[n - 1]) then 0.0 else Total(Fees, orders[n - 1])
  }

  function RealOrders(orders: seq<seq<Snapshot>>, n: nat): nat
    requires n <= |orders| && NonEmpty(orders)
  {
    if n == 0 then 0 else RealOrders(orders, n - 1) + if HasRealFee(orders[n - 1]) then 1 else 0
  }

  /** The sum of `f` over the items of the first `n` orders. */
  function OrderTotals(f: Snapshot -> real, orders: seq<seq<Snapshot>>, n: nat): real
    requires n <= |orders|
  {
    if n == 0 then 0.0 else OrderTotals(f, orders, n - 1) + Total(f, orders[n - 1])
  }

  lemma {:induction false} TotalOfParts(f: Snapshot -> real, a: seq<Snapshot>, b: seq<Snapshot>, n: nat)
    requires n <= |b|
    ensures Sum(f, a + b, |a| + n) == Total(f, a) + Sum(f, b, n)
  {
    if n == 0 {
      assert (a + b)[..|a|] == a[..|a|];
      SumPrefix(f, a + b, a, |a|);
    } else {
      TotalOfParts(f, a, b, n - 1);
    }
  }

  /** Conservation: the adjusted items bear exactly the real and the estimated fees. */
  lemma {:induction false} FeesOfOrders(orders: seq<seq<Snapshot>>, n: nat)
    requires n <= |orders| && NonEmpty(orders)
    ensures Total(Fees, Adjusted(orders, n)) == RealFees(orders, n) + EstimatedFees(orders, n)
  {
    hide AdjustOrder, RealFee, HasRealFee;
    if n > 0 {
      FeesOfOrders(orders, n - 1);
      OrderFees(orders[n - 1]);
      TotalOfParts(Fees, Adjusted(orders, n - 1), AdjustOrder(orders[n - 1]), |AdjustOrder(orders[n - 1])|);
    }
  }

  /** A figure that does not depend on which fees an item bears. */
  ghost predicate IgnoresFees(f: Snapshot -> real) { forall a, b :: SameButFees(a, b) ==> f(a) == f(b) }

  lemma {:induction false} KeptItems(f: Snapshot -> real, items: seq<Snapshot>, n: nat)
    requires n <= |items| && |items| > 0 && IgnoresFees(f)
    ensures Total(f, AdjustItems(items, n)) == Sum(f, items, n)
  {
    hide SameButFees, HasRealFee, Share;
    if n > 0 {
      KeptItems(f, items, n - 1);
      ItemsKept(items, n);
      SumPrefix(f, AdjustItems(items, n - 1), AdjustItems(items, n), n - 1);
      assert SameButFees(AdjustItems(items, n)[n - 1], items[n - 1]);
    }
  }

  lemma {:induction false} KeptOrders(f: Snapshot -> real, orders: seq<seq<Snapshot>>, n: nat)
    requires n <= |orders| && NonEmpty(orders) && IgnoresFees(f)
    ensures Total(f, Adjusted(orders, n)) == OrderTotals(f, orders, n)
  {
    hide AdjustOrder, IgnoresFees;
    if n > 0 {
      KeptOrders(f, orders, n - 1);
      KeptItems(f, orders[n - 1], |orders[n - 1]|);
      AdjustedWhole(orders[n - 1]);
      TotalOfParts(f, Adjusted(orders, n - 1), AdjustOrder(orders[n - 1]), |AdjustOrder(orders[n - 1])|);
    }
  }

  lemma {:induction false} AdjustedWhole(items: seq<Snapshot>)
    requires |items| > 0
    ensures AdjustOrder(items) == AdjustItems(items, |items|)
  {
  }

  /** The sum of `f` over what the first `n` snapshots put into the first `i` orders. */
  function Gathered(f: Snapshot -> real, cs: seq<Snapshot>, keys: seq<string>, n: nat, i: nat): real
    requires n <= |cs| && i <= |keys|
  {
    if i == 0 then 0.0 else Gathered(f, cs, keys, n, i - 1) + Total(f, Among(OrderOf, keys[i - 1], cs, n))
  }

  lemma {:induction false} AmongTotal(f: Snapshot -> real, cs: seq<Snapshot>, key: string, n: nat)
    requires 0 < n <= |cs|
    ensures Total(f, Among(OrderOf, key, cs, n))
         == Total(f, Among(OrderOf, key, cs, n - 1)) + if OrderOf(cs[n - 1]) == key then f(cs[n - 1]) else 0.0
  {
    if OrderOf(cs[n - 1]) == key {
      TotalOfParts(f, Among(OrderOf, key, cs, n - 1), [cs[n - 1]], 1);
      assert Sum(f, [cs[n - 1]], 0) == 0.0;
    } else {
      assert Among(OrderOf, key, cs, n) == Among(OrderOf, key, cs, n - 1);
    }
  }

  lemma {:induction false} GatherOne(f: Snapshot -> real, cs: seq<Snapshot>, keys: seq<string>, n: nat, i: nat)
    requires 0 < n <= |cs| && i <= |keys| && Distinct(keys)
    ensures Gathered(f, cs, keys, n, i)
         == Gathered(f, cs, keys, n - 1, i) + if OrderOf(cs[n - 1]) in keys[..i] then f(cs[n - 1]) else 0.0
  {
    hide Among;
    if i > 0 {
      GatherOne(f, cs, keys, n, i - 1);
      AmongTotal(f, cs, keys[i - 1], n);
      assert keys[..i] == keys[..i - 1] + [keys[i - 1]];
    }
  }

  lemma {:induction false} GatherNone(f: Snapshot -> real, cs: seq<Snapshot>, keys: seq<string>, i: nat)
    requires i <= |keys|
    ensures Gathered(f, cs, keys, 0, i) == 0.0
  {
    if i > 0 {
      GatherNone(f, cs, keys, i - 1);
      assert Among(OrderOf, keys[i - 1], cs, 0) == [];
    }
  }

  lemma {:induction false} GatherAll(f: Snapshot -> real, cs: seq<Snapshot>, keys: seq<string>, n: nat)
    requires n <= |cs| && Distinct(keys) && forall k :: 0 <= k < |cs| ==> OrderOf(cs[k]) in keys
    ensures Gathered(f, cs, keys, n, |keys|) == Sum(f, cs, n)
  {
    hide Among, Gathered;
    if n == 0 {
      GatherNone(f, cs, keys, |keys|);
    } else {
      GatherAll(f, cs, keys, n - 1);
      GatherOne(f, cs, keys, n, |keys|);
      assert keys[..|keys|] == keys;
    }
  }

  lemma {:induction false} GatheredIsOrders(f: Snapshot -> real, cs: seq<Snapshot>, i: nat)
    requires i <= |Orders(cs)|
    ensures OrderTotals(f, Orders(cs), i) == Gathered(f, cs, Keys(OrderOf, cs, |cs|), |cs|, i)
  {
    hide Among, Keys, Sum;
    if i > 0 { GatheredIsOrders(f, cs, i - 1); }
  }

  /** Grouping by order loses nothing and counts nothing twice. */
  lemma {:induction false} GroupingKeeps(f: Snapshot -> real, cs: seq<Snapshot>)
    ensures OrderTotals(f, Orders(cs), |Orders(cs)|) == Total(f, cs)
  {
    KeysCover(OrderOf, cs, |cs|);
    GatherAll(f, cs, Keys(OrderOf, cs, |cs|), |cs|);
    GatheredIsOrders(f, cs, |Orders(cs)|);
  }

  function EstimatedOrders(orders: seq<seq<Snapshot>>, n: nat): nat
    requires n <= |orders| && NonEmpty(orders)
  {
    if n == 0 then 0 else EstimatedOrders(orders, n - 1) + if HasRealFee(orders[n - 1]) then 0 else 1
  }

  lemma {:induction false} OrdersCounted(orders: seq<seq<Snapshot>>, n: nat)
    requires n <= |orders| && NonEmpty(orders)
    ensures RealOrders(orders, n) + EstimatedOrders(orders, n) == n
  {
    if n > 0 { OrdersCounted(orders, n - 1); }
  }

  // ---------- the calculation ----------

  datatype Applied = Applied(snapshots: seq<Snapshot>, realSalesFees: real, estimatedSalesFees: real,
      realFeeOrderCount: nat, estimatedFeeOrderCount: nat)

  function Apply(cs: seq<Snapshot>): Applied {
    OrdersNonEmpty(cs);
    var orders := Orders(cs);
    var n := |orders|;
    Applied(Adjusted(orders, n), RealFees(orders, n), EstimatedFees(orders, n), RealOrders(orders, n),
        EstimatedOrders(orders, n))
  }

  /** The two counts add up to the number of distinct orders. */
  lemma {:induction false} CountsAddUp(cs: seq<Snapshot>)
    ensures var a := Apply(cs); a.realFeeOrderCount + a.estimatedFeeOrderCount == |KeySet(OrderOf, cs, |cs|)|
  {
    OrdersNonEmpty(cs);
    OrdersCounted(Orders(cs), |Orders(cs)|);
    KeysAreDistinct(OrderOf, cs, |cs|);
  }

  // ---------- which orders are real ----------

  /** The order's first snapshot says what was paid and what was received. */
  ghost predicate Paid(cs: seq<Snapshot>, id: string) {
    exists i :: 0 <= i < |cs| && IsFirst(cs, i, id) && cs[i].gross.Some? && cs[i].net.Some?
  }

  predicate IsFirst(cs: seq<Snapshot>, i: nat, id: string)
    requires i < |cs|
  {
    cs[i].orderId == id && forall j :: 0 <= j < i ==> cs[j].orderId != id
  }

  lemma {:induction false} PaidHasRealFee(cs: seq<Snapshot>, j: nat)
    requires j < |Orders(cs)|
    ensures |Orders(cs)[j]| > 0
    ensures HasRealFee(Orders(cs)[j]) <==> Paid(cs, Keys(OrderOf, cs, |cs|)[j])
    ensures forall s :: s in Orders(cs)[j] ==> s.orderId == Keys(OrderOf, cs, |cs|)[j]
  {
    var id := Keys(OrderOf, cs, |cs|)[j];
    OrdersNonEmpty(cs);
    var i := HeadIs(OrderOf, id, cs, |cs|);
    assert IsFirst(cs, i, id);
    AmongKeepsKey(OrderOf, id, cs, |cs|);
    forall s | s in Orders(cs)[j] ensures s.orderId == id {
      var k :| 0 <= k < |Orders(cs)[j]| && Orders(cs)[j][k] == s;
      assert OrderOf(Orders(cs)[j][k]) == id;
    }
    if Paid(cs, id) {
      var p :| 0 <= p < |cs| && IsFirst(cs, p, id) && cs[p].gross.Some? && cs[p].net.Some?;
      assert p == i;
    }
  }

  /** The fees an item's order is estimated by: none where the payment says what they are. */
  ghost function EstimateIn(cs: seq<Snapshot>): Snapshot -> real {
    (s: Snapshot) => if Paid(cs, s.orderId) then 0.0 else s.platformFee + s.paymentFee
  }

  lemma {:induction false} SameSum(f: Snapshot -> real, g: Snapshot -> real, items: seq<Snapshot>, n: nat)
    requires n <= |items| && forall s :: s in items ==> f(s) == g(s)
    ensures Sum(f, items, n) == Sum(g, items, n)
  {
    if n > 0 { SameSum(f, g, items, n - 1); }
  }

  lemma {:induction false} SumOfZeros(f: Snapshot -> real, items: seq<Snapshot>, n: nat)
    requires n <= |items| && forall s :: s in items ==> f(s) == 0.0
    ensures Sum(f, items, n) == 0.0
  {
    if n > 0 { SumOfZeros(f, items, n - 1); }
  }

  lemma {:induction false} EstimatesByOrder(cs: seq<Snapshot>, n: nat)
    requires n <= |Orders(cs)| && NonEmpty(Orders(cs))
    ensures EstimatedFees(Orders(cs), n) == OrderTotals(EstimateIn(cs), Orders(cs), n)
  {
    hide Paid, HasRealFee, Orders;
    if n > 0 {
      EstimatesByOrder(cs, n - 1);
      PaidHasRealFee(cs, n - 1);
      var items := Orders(cs)[n - 1];
      if HasRealFee(items) {
        SumOfZeros(EstimateIn(cs), items, |items|);
      } else {
        SameSum(EstimateIn(cs), Fees, items, |items|);
      }
    }
  }

  lemma {:induction false} OneMorePaid(cs: seq<Snapshot>, keys: seq<string>, n: nat)
    requires 0 < n <= |keys| && Distinct(keys)
    ensures |set id | id in keys[..n] && Paid(cs, id)|
         == |set id | id in keys[..n - 1] && Paid(cs, id)| + if Paid(cs, keys[n - 1]) then 1 else 0
  {
    hide Paid;
    var before := set id | id in keys[..n - 1] && Paid(cs, id);
    var all := set id | id in keys[..n] && Paid(cs, id);
    assert keys[..n] == keys[..n - 1] + [keys[n - 1]];
    assert all == if Paid(cs, keys[n - 1]) then before + {keys[n - 1]} else before;
  }

  lemma {:induction false} PaidOrders(cs: seq<Snapshot>, n: nat)
    requires n <= |Orders(cs)| && NonEmpty(Orders(cs))
    ensures RealOrders(Orders(cs), n)
         == |set id | id in Keys(OrderOf, cs, |cs|)[..n] && Paid(cs, id)|
  {
    var keys := Keys(OrderOf, cs, |cs|);
    assert |keys| == |Orders(cs)|;
    hide Paid, HasRealFee, Orders;
    if n > 0 {
      PaidOrders(cs, n - 1);
      PaidHasRealFee(cs, n - 1);
      OneMorePaid(cs, keys, n);
    } else {
      assert (set id | id in keys[..0] && Paid(cs, id)) == {};
    }
  }

  /** What is estimated: exactly the fees of the items whose order's first item does not say both what
      was paid and what was received. And the orders that say both are the ones counted as real. */
  lemma {:induction false} EstimatedAreUnpaid(cs: seq<Snapshot>)
    ensures Apply(cs).estimatedSalesFees == Total(EstimateIn(cs), cs)
    ensures Apply(cs).realFeeOrderCount == |set id | id in KeySet(OrderOf, cs, |cs|) && Paid(cs, id)|
  {
    OrdersNonEmpty(cs);
    var keys, n := Keys(OrderOf, cs, |cs|), |Orders(cs)|;
    EstimatesByOrder(cs, n);
    GroupingKeeps(EstimateIn(cs), cs);
    PaidOrders(cs, n);
    KeysAreDistinct(OrderOf, cs, |cs|);
    assert keys[..n] == keys;
    hide Paid;
    forall id ensures id in keys <==> id in KeySet(OrderOf, cs, |cs|) { KeyInBoth(OrderOf, cs, |cs|, id); }
    assert (set id | id in keys && Paid(cs, id)) == (set id | id in KeySet(OrderOf, cs, |cs|) && Paid(cs, id));
  }

  method SumOfNets(items: seq<Snapshot>) returns (base: real)
    ensures base == Base(items)
  {
    base := 0.0;
    for i := 0 to |items|
      invariant base == Sum(Net, items, i)
    {
      base := base + items[i].netRevenue;
    }
  }

  /** One order with a real fee: `remaining` is what its items have not taken yet. */
  method SplitFee(items: seq<Snapshot>) returns (adjusted: seq<Snapshot>)
    requires |items| > 0 && HasRealFee(items)
    ensures adjusted == AdjustOrder(items)
  {
    hide RealFee, RoundCents, Base;
    var base := SumOfNets(items);
    var realFee := RealFee(items);
    var remaining := realFee;
    adjusted := [];
    for i := 0 to |items|
      invariant adjusted == AdjustItems(items, i)
      invariant i < |items| ==> remaining == realFee - Spent(items, i)
    {
      var share :=
        if i == |items| - 1 then remaining
        else if base > 0.0 then RoundCents(Part(realFee, items[i].netRevenue, base)) else 0.0;
      remaining := remaining - share;
      adjusted := adjusted + [Adjust(items[i], share)];
    }
  }

  /** One order without: its items stay as they are. */
  method KeepEstimate(items: seq<Snapshot>, estimate: real) returns (adjusted: seq<Snapshot>, estimatedSalesFees: real)
    requires |items| > 0 && !HasRealFee(items)
    ensures adjusted == AdjustOrder(items)
    ensures estimatedSalesFees == estimate + Total(Fees, items)
  {
    adjusted, estimatedSalesFees := [], estimate;
    for i := 0 to |items|
      invariant adjusted == AdjustItems(items, i)
      invariant estimatedSalesFees == estimate + Sum(Fees, items, i)
    {
      estimatedSalesFees := estimatedSalesFees + items[i].platformFee + items[i].paymentFee;
      adjusted := adjusted + [items[i]];
    }
  }

  method ApplyRealOrderFees(snapshots: seq<Snapshot>) returns (r: Applied)
    ensures r == Apply(snapshots)
  {
    OrdersNonEmpty(snapshots);
    hide AdjustOrder, RealFee, HasRealFee, Keys, Queues;
    ghost var orders := Orders(snapshots);
    var orderIds, byOrder := Group(OrderOf, snapshots);
    var adjusted: seq<Snapshot> := [];
    var realSalesFees, estimatedSalesFees := 0.0, 0.0;
    var realFeeOrderCount: nat, estimatedFeeOrderCount: nat := 0, 0;
    for j := 0 to |orderIds|
      invariant adjusted == Adjusted(orders, j)
      invariant realSalesFees == RealFees(orders, j) && estimatedSalesFees == EstimatedFees(orders, j)
      invariant realFeeOrderCount == RealOrders(orders, j) && estimatedFeeOrderCount == EstimatedOrders(orders, j)
    {
      var items := byOrder[orderIds[j]];
      assert items == orders[j];
      var part;
      if HasRealFee(items) {
        realFeeOrderCount := realFeeOrderCount + 1;
        realSalesFees := realSalesFees + RealFee(items);
        part := SplitFee(items);
      } else {
        estimatedFeeOrderCount := estimatedFeeOrderCount + 1;
        part, estimatedSalesFees := KeepEstimate(items, estimatedSalesFees);
      }
      adjusted := adjusted + part;
    }
    r := Applied(adjusted, realSalesFees, estimatedSalesFees, realFeeOrderCount, estimatedFeeOrderCount);
  }

  // ---------- the summary ----------

  datatype Totals = Totals(grossRevenue: real, discounts: real, netRevenue: real, cmv: real, feesAndTaxes: real,
      salesFees: real, taxes: real, grossProfit: real)

  datatype Summary = Summary(
    totals: Totals,
    estimatedNetProfit: real,
    netMarginRate: real,
    contributionMarginRate: real,
    breakEvenRevenue: Option<real>,
    fixedCostVariance: real
  )

  function Gross(s: Snapshot): real { s.grossRevenue }
  function Discount(s: Snapshot): real { s.discount }
  function Cmv(s: Snapshot): real { s.cmv }
  function Tax(s: Snapshot): real { s.taxAmount }
  function Profit(s: Snapshot): real { s.grossProfit }
  function FeesAndTax(s: Snapshot): real { s.platformFee + s.taxAmount + s.paymentFee }
  function ProfitBeforeFees(s: Snapshot): real { s.grossProfit + Fees(s) }

  function TotalsOf(s: seq<Snapshot>, n: nat): Totals
    requires n <= |s|
  {
    Totals(Sum(Gross, s, n), Sum(Discount, s, n), Sum(Net, s, n), Sum(Cmv, s, n), Sum(FeesAndTax, s, n),
        Sum(Fees, s, n), Sum(Tax, s, n), Sum(Profit, s, n))
  }

  const NOTHING: Totals := Totals(0.0, 0.0, 0.0, 0.0, 0.0, 0.0, 0.0, 0.0)

  /** The second totals are the first ones with the snapshot's figures added. */
  predicate Adds(t: Totals, s: Snapshot, u: Totals) {
    && u.grossRevenue == t.grossRevenue + s.grossRevenue
    && u.discounts == t.discounts + s.discount
    && u.netRevenue == t.netRevenue + s.netRevenue
    && u.cmv == t.cmv + s.cmv
    && u.feesAndTaxes == t.feesAndTaxes + s.platformFee + s.taxAmount + s.paymentFee
    && u.salesFees == t.salesFees + s.platformFee + s.paymentFee
    && u.taxes == t.taxes + s.taxAmount
    && u.grossProfit == t.grossProfit + s.grossProfit
  }

  /** The eight totals: nothing sums to nothing, one snapshot to its own figures. */
  lemma {:induction false} TotalsOfFew(s: Snapshot)
    ensures TotalsOf([], 0) == NOTHING
    ensures TotalsOf([s], 1) == Totals(s.grossRevenue, s.discount, s.netRevenue, s.cmv,
        s.platformFee + s.taxAmount + s.paymentFee, s.platformFee + s.paymentFee, s.taxAmount, s.grossProfit)
  {
    SumOfOne(Gross, s);
    SumOfOne(Discount, s);
    SumOfOne(Net, s);
    SumOfOne(Cmv, s);
    SumOfOne(FeesAndTax, s);
    SumOfOne(Fees, s);
    SumOfOne(Tax, s);
    SumOfOne(Profit, s);
    hide Sum;
  }

  lemma {:induction false} SumOfOne(f: Snapshot -> real, s: Snapshot)
    ensures Sum(f, [], 0) == 0.0 && Sum(f, [s], 1) == f(s)
  {
    assert Sum(f, [s], 0) == 0.0;
  }

  /** And the totals of two lists together are the sums of theirs. */
  lemma {:induction false} TotalsOfBoth(a: seq<Snapshot>, b: seq<Snapshot>)
    ensures var t, u, v := TotalsOf(a, |a|), TotalsOf(b, |b|), TotalsOf(a + b, |a + b|);
            && v.grossRevenue == t.grossRevenue + u.grossRevenue && v.discounts == t.discounts + u.discounts
            && v.netRevenue == t.netRevenue + u.netRevenue && v.cmv == t.cmv + u.cmv
            && v.feesAndTaxes == t.feesAndTaxes + u.feesAndTaxes && v.salesFees == t.salesFees + u.salesFees
            && v.taxes == t.taxes + u.taxes && v.grossProfit == t.grossProfit + u.grossProfit
  {
    hide Sum;
    TotalOfParts(Gross, a, b, |b|);
    TotalOfParts(Discount, a, b, |b|);
    TotalOfParts(Net, a, b, |b|);
    TotalOfParts(Cmv, a, b, |b|);
    TotalOfParts(FeesAndTax, a, b, |b|);
    TotalOfParts(Fees, a, b, |b|);
    TotalOfParts(Tax, a, b, |b|);
    TotalOfParts(Profit, a, b, |b|);
  }

  method SumTotals(snapshots: seq<Snapshot>) returns (t: Totals)
    ensures t == TotalsOf(snapshots, |snapshots|)
    ensures |snapshots| == 0 ==> t == NOTHING
    ensures |snapshots| > 0 ==> Adds(TotalsOf(snapshots, |snapshots| - 1), snapshots[|snapshots| - 1], t)
  {
    t := Totals(0.0, 0.0, 0.0, 0.0, 0.0, 0.0, 0.0, 0.0);
    for i := 0 to |snapshots|
      invariant t == TotalsOf(snapshots, i)
    {
      var s := snapshots[i];
      t := Totals(
        t.grossRevenue + s.grossRevenue, t.discounts + s.discount, t.netRevenue + s.netRevenue, t.cmv + s.cmv,
        t.feesAndTaxes + s.platformFee + s.taxAmount + s.paymentFee, t.salesFees + s.platformFee + s.paymentFee,
        t.taxes + s.taxAmount, t.grossProfit + s.grossProfit
      );
    }
  }

  /** The result of the month. At the break-even revenue, the margin after variable expenses pays
      exactly the fixed ones. */
  method CalculateDreSummary(snapshots: seq<Snapshot>, variableExpenses: Option<real>, fixedExpenses: real,
      plannedFixedCost: Option<real>)
    returns (r: Summary)
    ensures r.totals == TotalsOf(snapshots, |snapshots|)
    ensures |snapshots| == 0 ==> r.totals == NOTHING
    ensures |snapshots| > 0 ==> Adds(TotalsOf(snapshots, |snapshots| - 1), snapshots[|snapshots| - 1], r.totals)
    ensures var spent := if variableExpenses.Some? then variableExpenses.value else 0.0;
            && r.estimatedNetProfit == r.totals.grossProfit - spent - fixedExpenses
            && r.fixedCostVariance == fixedExpenses - (if plannedFixedCost.Some? then plannedFixedCost.value else 0.0)
            && (r.breakEvenRevenue.Some? <==> r.totals.netRevenue > 0.0 && r.totals.grossProfit > spent)
            && (r.breakEvenRevenue.Some? ==>
                   r.breakEvenRevenue.value * (r.totals.grossProfit - spent) == fixedExpenses * r.totals.netRevenue)
    ensures r.totals.netRevenue > 0.0 ==> r.netMarginRate * r.totals.netRevenue == r.estimatedNetProfit
    ensures r.totals.netRevenue > 0.0 ==> r.contributionMarginRate * r.totals.netRevenue == r.totals.grossProfit
    ensures r.totals.netRevenue <= 0.0 ==> r.netMarginRate == 0.0 && r.contributionMarginRate == 0.0
  {
    hide TotalsOf, Rate, Adds;
    var t := SumTotals(snapshots);
    var spent := if variableExpenses.Some? then variableExpenses.value else 0.0;
    var planned := if plannedFixedCost.Some? then plannedFixedCost.value else 0.0;
    var estimatedNetProfit := t.grossProfit - spent - fixedExpenses;
    var netMarginRate, contributionMarginRate, marginAfterVariableRate := 0.0, 0.0, 0.0;
    if t.netRevenue > 0.0 {
      netMarginRate := Rate(estimatedNetProfit, t.netRevenue);
      contributionMarginRate := Rate(t.grossProfit, t.netRevenue);
      marginAfterVariableRate := Rate(t.grossProfit - spent, t.netRevenue);
      RateTimes(estimatedNetProfit, t.netRevenue);
      RateTimes(t.grossProfit, t.netRevenue);
      RateTimes(t.grossProfit - spent, t.netRevenue);
    }
    var breakEvenRevenue := None;
    if marginAfterVariableRate > 0.0 {
      BreakEven(fixedExpenses, t.grossProfit - spent, t.netRevenue);
      breakEvenRevenue := Some(Rate(fixedExpenses, marginAfterVariableRate));
    }
    r := Summary(t, estimatedNetProfit, netMarginRate, contributionMarginRate, breakEvenRevenue,
        fixedExpenses - planned);
  }

  function Rate(a: real, b: real): real
    requires b > 0.0
  {
    a / b
  }

  lemma {:induction false} RateTimes(a: real, b: real)
    requires b > 0.0
    ensures Rate(a, b) * b == a && (Rate(a, b) > 0.0 <==> a > 0.0)
  {
  }

  lemma {:induction false} BreakEven(fixed: real, margin: real, revenue: real)
    requires revenue > 0.0 && Rate(margin, revenue) > 0.0
    ensures Rate(fixed, Rate(margin, revenue)) * margin == fixed * revenue
  {
    RateTimes(margin, revenue);
    RateTimes(fixed, Rate(margin, revenue));
    MoveFactor(Rate(fixed, Rate(margin, revenue)), Rate(margin, revenue), revenue);
  }

  lemma {:induction false} MoveFactor(a: real, b: real, c: real)
    ensures a * (b * c) == (a * b) * c
  {
  }

  /** What real fees do to the month: revenue, discounts, costs and taxes stay, the sales fees become
      the real plus the estimated ones, and the gross profit moves by exactly the difference. */
  lemma {:induction false} RealFeesInSummary(cs: seq<Snapshot>)
    ensures var before, a := TotalsOf(cs, |cs|), Apply(cs);
            var after := TotalsOf(a.snapshots, |a.snapshots|);
            && after.salesFees == a.realSalesFees + a.estimatedSalesFees
            && after.grossRevenue == before.grossRevenue && after.discounts == before.discounts
            && after.netRevenue == before.netRevenue
            && after.cmv == before.cmv && after.taxes == before.taxes
            && after.grossProfit + after.salesFees == before.grossProfit + before.salesFees
            && after.feesAndTaxes == after.salesFees + after.taxes
  {
    OrdersNonEmpty(cs);
    var orders := Orders(cs);
    var adjusted := Adjusted(orders, |orders|);
    FeesOfOrders(orders, |orders|);
    FiguresIgnoreFees();
    hide Sum, Adjusted, Orders, OrderTotals, RealFees, EstimatedFees, RealOrders, EstimatedOrders, IgnoresFees;
    TotalKept(Gross, cs);
    TotalKept(Discount, cs);
    TotalKept(Net, cs);
    TotalKept(Cmv, cs);
    TotalKept(Tax, cs);
    TotalKept(ProfitBeforeFees, cs);
    SumOfSums(cs, |cs|);
    SumOfSums(adjusted, |adjusted|);
  }

  lemma {:induction false} FiguresIgnoreFees()
    ensures IgnoresFees(Gross) && IgnoresFees(Discount) && IgnoresFees(Net)
    ensures IgnoresFees(Cmv) && IgnoresFees(Tax) && IgnoresFees(ProfitBeforeFees)
  {
  }

  lemma {:induction false} TotalKept(f: Snapshot -> real, cs: seq<Snapshot>)
    requires NonEmpty(Orders(cs)) && IgnoresFees(f)
    ensures Total(f, Adjusted(Orders(cs), |Orders(cs)|)) == Total(f, cs)
  {
    KeptOrders(f, Orders(cs), |Orders(cs)|);
    GroupingKeeps(f, cs);
  }

  lemma {:induction false} SumOfSums(s: seq<Snapshot>, n: nat)
    requires n <= |s|
    ensures Sum(ProfitBeforeFees, s, n) == Sum(Profit, s, n) + Sum(Fees, s, n)
    ensures Sum(FeesAndTax, s, n) == Sum(Fees, s, n) + Sum(Tax, s, n)
  {
    if n > 0 { SumOfSums(s, n - 1); }
  }
}
