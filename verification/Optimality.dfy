/** Greedy matching is the best possible: for the quantity it trades, no other
    way of taking that quantity from the same resting orders is cheaper for a
    buyer or pays a seller more, and the quantity itself is as large as the
    order and the acceptable resting orders allow. */
module Optimality {
  import opened Types
  import opened Matching

  /** How much to take from each order of a queue. */
  type Allocation = seq<int>

  predicate Feasible(a: Allocation, q: seq<Order>) {
    |a| == |q| && forall i :: 0 <= i < |q| ==> 0 <= a[i] <= q[i].remaining
  }

  function Total(a: Allocation): int {
    if a == [] then 0 else a[0] + Total(a[1..])
  }

  /** Price times quantity of an allocation. */
  function Cost(a: Allocation, q: seq<Order>): int
    requires |a| == |q|
  {
    if a == [] then 0 else a[0] * Px(q[0]) + Cost(a[1..], q[1..])
  }

  /** Price times quantity of what was traded. */
  function Notional(ts: seq<Trade>): int {
    if ts == [] then 0 else ts[0].quantity * ts[0].price + Notional(ts[1..])
  }

  /** Everything resting at an acceptable price, wherever it stands in the queue. */
  function AcceptableQuantity(inc: Order, q: seq<Order>, ignorePrice: bool): int
    requires !ignorePrice ==> inc.price.Some?
  {
    if q == [] then 0
    else (if Accepts(inc, ignorePrice, Px(q[0])) then q[0].remaining else 0)
         + AcceptableQuantity(inc, q[1..], ignorePrice)
  }

  lemma {:induction false} AcceptableIsReach(inc: Order, q: seq<Order>, ignorePrice: bool)
    requires !ignorePrice ==> inc.price.Some?
    requires LiveQueue(q) && Sorted(q)
    requires forall i :: 0 <= i < |q| ==> q[i].side != inc.side
    ensures AcceptableQuantity(inc, q, ignorePrice) == Depth(q, Reach(inc, q, ignorePrice))
  {
    if q != [] {
      var rest := q[1..];
      AcceptableIsReach(inc, rest, ignorePrice);
      if Accepts(inc, ignorePrice, Px(q[0])) {
        DepthStep(q, Reach(inc, q, ignorePrice));
      } else if rest != [] {
        ReachIsEverything(inc, q, ignorePrice, 1);
        assert !Accepts(inc, ignorePrice, Px(rest[0]));
      }
    }
  }

  /** The traded quantity is the smaller of the order and everything acceptable. */
  lemma TradesAsMuchAsPossible(inc: Order, q: seq<Order>, ignorePrice: bool)
    requires !ignorePrice ==> inc.price.Some?
    requires Incoming(inc) && LiveQueue(q) && Sorted(q)
    requires forall i :: 0 <= i < |q| ==> q[i].side != inc.side
    ensures Traded(Match(inc, q, ignorePrice).trades)
            == Min(inc.remaining, AcceptableQuantity(inc, q, ignorePrice))
  {
    MatchTotal(inc, q, ignorePrice);
    AcceptableIsReach(inc, q, ignorePrice);
  }

  /** The allocation that a list of trades with a prefix of the queue makes. */
  function Taken(ts: seq<Trade>, q: seq<Order>): (a: Allocation)
    requires |ts| <= |q|
    ensures |a| == |q|
    ensures forall i :: 0 <= i < |q| ==> a[i] == if i < |ts| then ts[i].quantity else 0
  {
    seq(|q|, i => if 0 <= i < |ts| then ts[i].quantity else 0)
  }

  lemma {:induction false} TakenTotals(ts: seq<Trade>, q: seq<Order>)
    requires |ts| <= |q|
    requires forall i :: 0 <= i < |ts| ==> ts[i].price == Px(q[i])
    ensures Total(Taken(ts, q)) == Traded(ts)
    ensures Cost(Taken(ts, q), q) == Notional(ts)
    decreases |q|
  {
    if q != [] {
      var ts' := if ts == [] then [] else ts[1..];
      TakenTotals(ts', q[1..]);
      assert Taken(ts, q)[1..] == Taken(ts', q[1..]);
    }
  }

  /** Compared with a threshold price, `g` takes all of what is cheaper and nothing of what is dearer. */
  predicate ThresholdFor(g: Allocation, q: seq<Order>, side: Side, price: int)
    requires |g| == |q|
  {
    forall i :: 0 <= i < |q| ==>
      && (Better(side, Px(q[i]), price) ==> g[i] == q[i].remaining)
      && (Better(side, price, Px(q[i])) ==> g[i] == 0)
  }

  predicate Better(side: Side, a: int, b: int) {
    if side == Buy then a < b else a > b
  }

  /** Cost relative to the threshold is least for such a `g`, order by order. */
  lemma {:induction false} ThresholdBeats(g: Allocation, a: Allocation, q: seq<Order>, side: Side, price: int)
    requires Feasible(g, q) && Feasible(a, q) && ThresholdFor(g, q, side, price)
    ensures side == Buy ==> Cost(g, q) - price * Total(g) <= Cost(a, q) - price * Total(a)
    ensures side == Sell ==> Cost(g, q) - price * Total(g) >= Cost(a, q) - price * Total(a)
    decreases |q|
  {
    if q != [] {
      ThresholdBeats(g[1..], a[1..], q[1..], side, price);
      OneOrder(g[0], a[0], q[0].remaining, Px(q[0]), price, side);
      Distribute(price, g[0], Total(g[1..]));
      Distribute(price, a[0], Total(a[1..]));
    }
  }

  lemma Distribute(p: int, x: int, y: int)
    ensures p * (x + y) == p * x + p * y
  {
  }

  lemma OneOrder(g: int, a: int, available: int, px: int, price: int, side: Side)
    requires 0 <= g <= available && 0 <= a <= available
    requires Better(side, px, price) ==> g == available
    requires Better(side, price, px) ==> g == 0
    ensures side == Buy ==> g * px - price * g <= a * px - price * a
    ensures side == Sell ==> g * px - price * g >= a * px - price * a
  {
    assert g * px - price * g == g * (px - price);
    assert a * px - price * a == a * (px - price);
    assert (g - a) * (px - price) == g * (px - price) - a * (px - price);
    if px < price {
      assert side == Buy ==> (g - a) * (px - price) <= 0;
    }
  }

  /** The price of the last order hit (or of the head, if none was). */
  function LastPrice(q: seq<Order>, t: nat): int
    requires t <= |q|
  {
    if t > 0 then Px(q[t - 1]) else if q == [] then 0 else Px(q[0])
  }

  lemma PricesAround(q: seq<Order>, t: nat, i: nat, side: Side)
    requires Sorted(q) && t <= |q| && i < |q|
    requires forall j :: 0 <= j < |q| ==> q[j].side != side
    ensures i < t ==> !Better(side, LastPrice(q, t), Px(q[i]))
    ensures t <= i + 1 ==> !Better(side, Px(q[i]), LastPrice(q, t))
  {
    var j := if t > 0 then t - 1 else 0;
    assert i < j ==> Rank(q[i]) <= Rank(q[j]);
    assert j < i ==> Rank(q[j]) <= Rank(q[i]);
  }

  lemma FilledBefore(inc: Order, q: seq<Order>, ignorePrice: bool, i: nat)
    requires !ignorePrice ==> inc.price.Some?
    requires Incoming(inc) && LiveQueue(q)
    requires var ts := Match(inc, q, ignorePrice).trades; i < |ts|
    ensures |Match(inc, q, ignorePrice).trades| <= |q|
    ensures var ts := Match(inc, q, ignorePrice).trades;
            && ts[i].price == Px(q[i])
            && 0 <= ts[i].quantity <= q[i].remaining
            && (i + 1 < |ts| ==> ts[i].quantity == q[i].remaining)
  {
    MatchCount(inc, q, ignorePrice);
    MatchTrades(inc, q, ignorePrice, i);
    assert Live(q[i]);
    if i + 1 < |Match(inc, q, ignorePrice).trades| {
      MatchTrades(inc, q, ignorePrice, i + 1);
      assert q[..i + 1] == q[..i] + [q[i]];
      SumAppend(q[..i], [q[i]]);
    }
  }

  /** Among all ways of taking the traded quantity from the opposite side, the
      trades made cost a buyer the least and pay a seller the most. */
  lemma GreedyIsOptimal(inc: Order, q: seq<Order>, ignorePrice: bool, a: Allocation)
    requires !ignorePrice ==> inc.price.Some?
    requires Incoming(inc) && LiveQueue(q) && Sorted(q)
    requires forall i :: 0 <= i < |q| ==> q[i].side != inc.side
    requires Feasible(a, q) && Total(a) == Traded(Match(inc, q, ignorePrice).trades)
    ensures inc.side == Buy ==> Notional(Match(inc, q, ignorePrice).trades) <= Cost(a, q)
    ensures inc.side == Sell ==> Notional(Match(inc, q, ignorePrice).trades) >= Cost(a, q)
  {
    var ts := Match(inc, q, ignorePrice).trades;
    MatchQueue(inc, q, ignorePrice);
    var g := Taken(ts, q);
    forall i | 0 <= i < |q|
      ensures i < |ts| ==> ts[i].price == Px(q[i])
      ensures 0 <= g[i] <= q[i].remaining
      ensures Better(inc.side, Px(q[i]), LastPrice(q, |ts|)) ==> g[i] == q[i].remaining
      ensures Better(inc.side, LastPrice(q, |ts|), Px(q[i])) ==> g[i] == 0
    {
      assert Live(q[i]);
      PricesAround(q, |ts|, i, inc.side);
      if i < |ts| {
        FilledBefore(inc, q, ignorePrice, i);
      }
    }
    TakenTotals(ts, q);
    ThresholdBeats(g, a, q, inc.side, LastPrice(q, |ts|));
  }
}
