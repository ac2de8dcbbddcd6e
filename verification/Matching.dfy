/** Orders, the flat price-time queue, and matching against it.

    A book side is specified by one queue: best price first, and first come
    first served within a price.  `Match` is the specification of the matching
    loop; `MatchClosedForm` says what it computes without recursion. */
module Matching {
  import opened Types

  // ---------------------------------------------------------------- orders

  predicate Active(o: Order) {
    o.status != Filled && o.status != Cancelled
  }

  /** The status a fill leaves behind. */
  function StatusFor(remaining: int, initial: int): Status {
    if remaining == initial then Open
    else if remaining == 0 then Filled
    else PartiallyFilled
  }

  /** Validation and construction of an order, in the order of the engine's checks. */
  function NewOrder(symbol: string, typ: OrderType, input: Input): Result<Order, Error> {
    if input.orderId == "" then Err(EmptyOrderId)
    else if input.userId == "" then Err(EmptyUserId)
    else if symbol == "" then Err(EmptySymbol)
    else if input.side.None? then Err(InvalidSide)
    else if input.quantity <= 0 then Err(BadQuantity)
    else if input.timestamp < 0 then Err(BadTimestamp)
    else if typ == Limit && (input.price.None? || input.price.value <= 0) then Err(BadPrice)
    else if typ == Market && input.price.Some? then Err(PricedMarketOrder)
    else Ok(Order(input.orderId, input.userId, symbol, input.side.value, typ, input.price,
                  input.quantity, input.quantity, Open, input.timestamp))
  }

  /** Filling, with the engine's three checks. */
  function Fill(o: Order, quantity: int): Result<Order, Error> {
    if quantity <= 0 then Err(BadQuantity)
    else if !Active(o) then Err(OrderInactive)
    else if quantity > o.remaining then Err(FillTooLarge)
    else Ok(FilledBy(o, quantity))
  }

  function FilledBy(o: Order, quantity: int): Order {
    o.(remaining := o.remaining - quantity,
       status := if o.remaining == quantity then Filled else PartiallyFilled)
  }

  function CancelOrder(o: Order): Result<Order, Error> {
    if !Active(o) then Err(OrderInactive) else Ok(o.(status := Cancelled))
  }

  /** An order on its way through the matching loop. */
  predicate Incoming(o: Order) {
    && o.id != "" && o.user != ""
    && 0 <= o.remaining <= o.initial
    && 0 < o.initial
    && o.status == StatusFor(o.remaining, o.initial)
    && (o.typ == Limit ==> o.price.Some? && o.price.value > 0)
  }

  /** A resting order: a live limit order with something left to trade. */
  predicate Live(o: Order) {
    Incoming(o) && o.typ == Limit && o.remaining > 0
  }

  /** The same order at another point of its life. */
  predicate SameOrder(o: Order, o': Order) {
    o' == o.(remaining := o'.remaining, status := o'.status)
  }

  // ---------------------------------------------------------------- queues

  function Px(o: Order): int {
    if o.price.Some? then o.price.value else 0
  }

  /** Smaller rank means better price for whoever trades against the order. */
  function Rank(o: Order): int {
    if o.side == Buy then -Px(o) else Px(o)
  }

  predicate LiveQueue(q: seq<Order>) {
    forall i :: 0 <= i < |q| ==> Live(q[i])
  }

  predicate Sorted(q: seq<Order>) {
    forall i, j :: 0 <= i < j < |q| ==> Rank(q[i]) <= Rank(q[j])
  }

  predicate NoDup(q: seq<Order>) {
    forall i, j :: 0 <= i < j < |q| ==> q[i].id != q[j].id
  }

  function Ids(q: seq<Order>): set<string> {
    set i | 0 <= i < |q| :: q[i].id
  }

  /** Total remaining quantity. */
  function Sum(q: seq<Order>): int {
    if q == [] then 0 else q[0].remaining + Sum(q[1..])
  }

  /** Total traded quantity. */
  function Traded(ts: seq<Trade>): int {
    if ts == [] then 0 else ts[0].quantity + Traded(ts[1..])
  }

  // -------------------------------------------------------------- matching

  /** The price test of the loop. */
  predicate Accepts(inc: Order, ignorePrice: bool, price: int)
    requires !ignorePrice ==> inc.price.Some?
  {
    ignorePrice || if inc.side == Buy then price <= inc.price.value else price >= inc.price.value
  }

  function TradeOf(inc: Order, resting: Order, quantity: int): (t: Trade)
    ensures t.quantity == quantity && t.price == Px(resting)
  {
    if inc.side == Buy
    then Trade(inc.symbol, Px(resting), quantity, inc.id, resting.id, Buy, inc.timestamp)
    else Trade(inc.symbol, Px(resting), quantity, resting.id, inc.id, Sell, inc.timestamp)
  }

  datatype Matched = Matched(incoming: Order, queue: seq<Order>, trades: seq<Trade>)

  /** Whether the loop stops: the order is done, the side is empty, or the best price is not good enough. */
  predicate Stops(inc: Order, q: seq<Order>, ignorePrice: bool)
    requires !ignorePrice ==> inc.price.Some?
  {
    inc.remaining <= 0 || q == [] || !Accepts(inc, ignorePrice, Px(q[0]))
  }

  /** One order after another from the head of the queue. */
  function Match(inc: Order, q: seq<Order>, ignorePrice: bool): (m: Matched)
    requires Incoming(inc) && LiveQueue(q)
    requires !ignorePrice ==> inc.price.Some?
    ensures Incoming(m.incoming) && SameOrder(inc, m.incoming) && LiveQueue(m.queue)
    decreases |q|
  {
    if Stops(inc, q, ignorePrice) then Matched(inc, q, [])
    else
      var n := Min(inc.remaining, q[0].remaining);
      var t := TradeOf(inc, q[0], n);
      var inc' := FilledBy(inc, n);
      if n == q[0].remaining then
        var m := Match(inc', q[1..], ignorePrice);
        m.(trades := [t] + m.trades)
      else
        Matched(inc', [FilledBy(q[0], n)] + q[1..], [t])
  }

  /** The fill of every step passes the checks of `Fill`, so the errors that
      the loop discards cannot occur. */
  lemma FillsNeverFail(inc: Order, q: seq<Order>, ignorePrice: bool)
    requires Incoming(inc) && LiveQueue(q)
    requires !ignorePrice ==> inc.price.Some?
    requires !Stops(inc, q, ignorePrice)
    ensures var n := Min(inc.remaining, q[0].remaining);
            && Fill(inc, n) == Ok(FilledBy(inc, n)) && Incoming(FilledBy(inc, n))
            && Fill(q[0], n) == Ok(FilledBy(q[0], n)) && Incoming(FilledBy(q[0], n))
            && (FilledBy(q[0], n).status == Filled <==> n == q[0].remaining)
  {
    assert Live(q[0]);
  }

  lemma TailIsLive(q: seq<Order>)
    requires LiveQueue(q) && q != []
    ensures LiveQueue(q[1..]) && Live(q[0])
  {
  }

  /** The head of the queue after `n` of it has been hit. */
  function AfterHit(q: seq<Order>, n: int): seq<Order>
    requires q != []
  {
    if n == q[0].remaining then q[1..] else [FilledBy(q[0], n)] + q[1..]
  }

  /** One turn of the loop, seen from the start of the next. */
  lemma MatchStep(inc: Order, q: seq<Order>, ignorePrice: bool)
    requires Incoming(inc) && LiveQueue(q)
    requires !ignorePrice ==> inc.price.Some?
    requires !Stops(inc, q, ignorePrice)
    ensures var n := Min(inc.remaining, q[0].remaining);
            var inc', q' := FilledBy(inc, n), AfterHit(q, n);
            && Incoming(inc') && LiveQueue(q')
            && Match(inc, q, ignorePrice).incoming == Match(inc', q', ignorePrice).incoming
            && Match(inc, q, ignorePrice).queue == Match(inc', q', ignorePrice).queue
            && Match(inc, q, ignorePrice).trades == [TradeOf(inc, q[0], n)] + Match(inc', q', ignorePrice).trades
  {
    FillsNeverFail(inc, q, ignorePrice);
  }

  lemma AfterHitSorted(q: seq<Order>, n: int)
    requires q != [] && Sorted(q)
    ensures Sorted(AfterHit(q, n))
  {
  }

  function Prepend(trades: seq<Trade>, m: Matched): Matched {
    m.(trades := trades + m.trades)
  }

  lemma PrependNothing(m: Matched)
    ensures Prepend([], m) == m
  {
    assert [] + m.trades == m.trades;
  }

  lemma PrependOne(ts: seq<Trade>, t: Trade, m: Matched)
    ensures Prepend(ts, Prepend([t], m)) == Prepend(ts + [t], m)
  {
    assert ts + ([t] + m.trades) == (ts + [t]) + m.trades;
  }

  lemma MatchStopped(inc: Order, v: seq<Order>, ignorePrice: bool, ts: seq<Trade>)
    requires Incoming(inc) && LiveQueue(v)
    requires !ignorePrice ==> inc.price.Some?
    requires Stops(inc, v, ignorePrice)
    ensures Prepend(ts, Match(inc, v, ignorePrice)) == Matched(inc, v, ts)
  {
    assert ts + [] == ts;
  }

  // ----------------------------------------------------------- closed form

  /** The length of the acceptable prefix of the queue. */
  function Reach(inc: Order, q: seq<Order>, ignorePrice: bool): (k: nat)
    requires !ignorePrice ==> inc.price.Some?
    ensures k <= |q|
    ensures forall i :: 0 <= i < k ==> Accepts(inc, ignorePrice, Px(q[i]))
    ensures k < |q| ==> !Accepts(inc, ignorePrice, Px(q[k]))
  {
    if q == [] || !Accepts(inc, ignorePrice, Px(q[0])) then 0
    else 1 + Reach(inc, q[1..], ignorePrice)
  }

  lemma SumNonNegative(q: seq<Order>)
    requires LiveQueue(q)
    ensures Sum(q) >= |q|
  {
    if q != [] {
      assert Live(q[0]);
      SumNonNegative(q[1..]);
    }
  }

  lemma SumAppend(a: seq<Order>, b: seq<Order>)
    ensures Sum(a + b) == Sum(a) + Sum(b)
  {
    if a == [] {
      assert a + b == b;
    } else {
      assert (a + b)[0] == a[0] && (a + b)[1..] == a[1..] + b;
      SumAppend(a[1..], b);
    }
  }

  /** The total without one of the orders. */
  lemma SumAround(q: seq<Order>, i: nat)
    requires i < |q|
    ensures Sum(q[..i] + q[i + 1..]) == Sum(q) - q[i].remaining
  {
    SumAppend(q[..i], q[i + 1..]);
    SumAppend(q[..i], q[i..]);
    assert q[..i] + q[i..] == q;
    assert q[i..][1..] == q[i + 1..];
  }

  lemma TradedAppend(a: seq<Trade>, b: seq<Trade>)
    ensures Traded(a + b) == Traded(a) + Traded(b)
  {
    if a == [] {
      assert a + b == b;
    } else {
      assert (a + b)[0] == a[0] && (a + b)[1..] == a[1..] + b;
      TradedAppend(a[1..], b);
    }
  }

  /** What the first `i` orders hold. */
  function Depth(q: seq<Order>, i: nat): int
    requires i <= |q|
  {
    Sum(q[..i])
  }

  lemma DepthStep(q: seq<Order>, i: nat)
    requires 0 < i <= |q|
    ensures Depth(q, i) == q[0].remaining + Depth(q[1..], i - 1)
  {
    assert q[..i][0] == q[0] && q[..i][1..] == q[1..][..i - 1];
  }

  /** What is left of the queue when its first `t` orders have been hit for `want` in all. */
  function Leftover(q: seq<Order>, t: nat, want: int): seq<Order>
    requires t <= |q|
  {
    if t > 0 && Depth(q, t) > want
    then [q[t - 1].(remaining := Depth(q, t) - want, status := PartiallyFilled)] + q[t..]
    else q[t..]
  }

  /** The incoming order once `want` of it has been traded. */
  function AfterFills(inc: Order, want: int): Order {
    inc.(remaining := inc.remaining - want, status := StatusFor(inc.remaining - want, inc.initial))
  }

  /** What is traded comes off the incoming order. */
  lemma {:induction false} MatchFills(inc: Order, q: seq<Order>, ignorePrice: bool)
    requires Incoming(inc) && LiveQueue(q)
    requires !ignorePrice ==> inc.price.Some?
    ensures var m := Match(inc, q, ignorePrice);
            m.incoming == AfterFills(inc, Traded(m.trades)) && Incoming(m.incoming)
    decreases |q|
  {
    if !Stops(inc, q, ignorePrice) {
      FillsNeverFail(inc, q, ignorePrice);
      var m, n := Match(inc, q, ignorePrice), Min(inc.remaining, q[0].remaining);
      if n == q[0].remaining {
        MatchFills(FilledBy(inc, n), q[1..], ignorePrice);
        assert m.trades[1..] == Match(FilledBy(inc, n), q[1..], ignorePrice).trades;
      } else {
        assert m.trades[1..] == [];
      }
    }
  }

  /** How much is traded: what is wanted or all that is acceptable, whichever is less. */
  lemma {:induction false} MatchTraded(inc: Order, q: seq<Order>, ignorePrice: bool)
    requires Incoming(inc) && LiveQueue(q)
    requires !ignorePrice ==> inc.price.Some?
    ensures Traded(Match(inc, q, ignorePrice).trades) == Min(inc.remaining, Depth(q, Reach(inc, q, ignorePrice)))
    decreases |q|
  {
    hide TradeOf;
    var m, k := Match(inc, q, ignorePrice), Reach(inc, q, ignorePrice);
    SumNonNegative(q[..k]);
    if Stops(inc, q, ignorePrice) {
      assert k == 0 || inc.remaining <= 0;
    } else {
      FillsNeverFail(inc, q, ignorePrice);
      DepthStep(q, k);
      SumNonNegative(q[1..][..k - 1]);
      var n := Min(inc.remaining, q[0].remaining);
      if n == q[0].remaining {
        var inc' := FilledBy(inc, n);
        MatchTraded(inc', q[1..], ignorePrice);
        ReachIgnoresFill(inc, inc', q[1..], ignorePrice);
        assert m.trades[1..] == Match(inc', q[1..], ignorePrice).trades;
      } else {
        assert m.trades[1..] == [];
      }
    }
  }

  /** How much is traded, and what becomes of the incoming order. */
  lemma MatchTotal(inc: Order, q: seq<Order>, ignorePrice: bool)
    requires Incoming(inc) && LiveQueue(q)
    requires !ignorePrice ==> inc.price.Some?
    ensures var m := Match(inc, q, ignorePrice);
            && Traded(m.trades) == Min(inc.remaining, Depth(q, Reach(inc, q, ignorePrice)))
            && m.incoming == AfterFills(inc, Traded(m.trades))
            && Incoming(m.incoming)
  {
    hide Match, Reach, AfterFills, Incoming, LiveQueue;
    MatchTraded(inc, q, ignorePrice);
    MatchFills(inc, q, ignorePrice);
  }

  /** How many orders are hit. */
  lemma {:induction false} MatchCount(inc: Order, q: seq<Order>, ignorePrice: bool)
    requires Incoming(inc) && LiveQueue(q)
    requires !ignorePrice ==> inc.price.Some?
    ensures var t, k := |Match(inc, q, ignorePrice).trades|, Reach(inc, q, ignorePrice);
            t <= k && (t == k || Depth(q, t) >= inc.remaining)
    decreases |q|
  {
    if !Stops(inc, q, ignorePrice) {
      FillsNeverFail(inc, q, ignorePrice);
      var n := Min(inc.remaining, q[0].remaining);
      var inc' := FilledBy(inc, n);
      ReachIgnoresFill(inc, inc', q[1..], ignorePrice);
      if n == q[0].remaining {
        MatchCount(inc', q[1..], ignorePrice);
      }
      DepthStep(q, |Match(inc, q, ignorePrice).trades|);
    }
  }

  /** The i-th trade is with the i-th order of the queue. */
  lemma {:induction false} MatchTrades(inc: Order, q: seq<Order>, ignorePrice: bool, i: nat)
    requires Incoming(inc) && LiveQueue(q)
    requires !ignorePrice ==> inc.price.Some?
    requires i < |Match(inc, q, ignorePrice).trades|
    ensures i < |q| && Depth(q, i) < inc.remaining
    ensures Match(inc, q, ignorePrice).trades[i]
            == TradeOf(inc, q[i], Min(q[i].remaining, inc.remaining - Depth(q, i)))
    decreases |q|
  {
    FillsNeverFail(inc, q, ignorePrice);
    if i > 0 {
      var inc' := FilledBy(inc, q[0].remaining);
      assert Match(inc, q, ignorePrice).trades[i] == Match(inc', q[1..], ignorePrice).trades[i - 1];
      MatchTrades(inc', q[1..], ignorePrice, i - 1);
      DepthStep(q, i);
    }
  }

  /** What is left is the rest of the queue in unchanged order. */
  lemma {:induction false} MatchQueue(inc: Order, q: seq<Order>, ignorePrice: bool)
    requires Incoming(inc) && LiveQueue(q)
    requires !ignorePrice ==> inc.price.Some?
    ensures var m := Match(inc, q, ignorePrice);
            |m.trades| <= |q| && m.queue == Leftover(q, |m.trades|, inc.remaining)
    decreases |q|
  {
    hide Incoming, LiveQueue;
    var m := Match(inc, q, ignorePrice);
    if !Stops(inc, q, ignorePrice) {
      FillsNeverFail(inc, q, ignorePrice);
      TailIsLive(q);
      var n := Min(inc.remaining, q[0].remaining);
      DepthStep(q, 1);
      assert Depth(q[1..], 0) == 0;
      if n == q[0].remaining {
        var inc' := FilledBy(inc, n);
        MatchQueue(inc', q[1..], ignorePrice);
        DepthStep(q, |m.trades|);
      }
    }
  }

  /** A trade of an incoming order with a resting one: at the resting price and the time of the incoming order, which
      is the aggressor; the buyer is whichever of the two buys. */
  predicate Between(t: Trade, inc: Order, resting: Order) {
    && t.symbol == inc.symbol && t.price == Px(resting) && t.aggressor == inc.side && t.timestamp == inc.timestamp
    && (inc.side == Buy ==> t.buyId == inc.id && t.sellId == resting.id)
    && (inc.side == Sell ==> t.sellId == inc.id && t.buyId == resting.id)
  }

  /** The matching loop without recursion.  It trades with a prefix of the
      queue; the i-th trade is with the i-th order, at that order's price, for
      the smaller of what that order has and what is still wanted; it stops
      only when the order is filled or the acceptable prefix is used up; and
      what remains is the rest of the queue in unchanged order. */
  lemma MatchClosedForm(inc: Order, q: seq<Order>, ignorePrice: bool)
    requires Incoming(inc) && LiveQueue(q)
    requires !ignorePrice ==> inc.price.Some?
    ensures var m, k := Match(inc, q, ignorePrice), Reach(inc, q, ignorePrice);
            var t := |m.trades|;
            && t <= k
            && Traded(m.trades) == Min(inc.remaining, Depth(q, k))
            && m.incoming == AfterFills(inc, Traded(m.trades))
            && (forall i :: 0 <= i < t ==>
                  && Depth(q, i) < inc.remaining && Between(m.trades[i], inc, q[i])
                  && m.trades[i].quantity == Min(q[i].remaining, inc.remaining - Depth(q, i)))
            && (t == k || Depth(q, t) >= inc.remaining)
            && m.queue == Leftover(q, t, inc.remaining)
  {
    MatchTotal(inc, q, ignorePrice);
    MatchCount(inc, q, ignorePrice);
    MatchQueue(inc, q, ignorePrice);
    var ts := Match(inc, q, ignorePrice).trades;
    forall i | 0 <= i < |ts|
      ensures Depth(q, i) < inc.remaining && Between(ts[i], inc, q[i])
      ensures ts[i].quantity == Min(q[i].remaining, inc.remaining - Depth(q, i))
    {
      MatchTrades(inc, q, ignorePrice, i);
    }
  }

  lemma ReachIgnoresFill(inc: Order, inc': Order, q: seq<Order>, ignorePrice: bool)
    requires !ignorePrice ==> inc.price.Some?
    requires inc'.side == inc.side && inc'.price == inc.price
    ensures Reach(inc, q, ignorePrice) == Reach(inc', q, ignorePrice)
  {
  }

  /** On a sorted queue of the opposite side the acceptable prefix holds every acceptable order. */
  lemma ReachIsEverything(inc: Order, q: seq<Order>, ignorePrice: bool, i: nat)
    requires !ignorePrice ==> inc.price.Some?
    requires Sorted(q) && LiveQueue(q) && i < |q|
    requires forall j :: 0 <= j < |q| ==> q[j].side != inc.side
    ensures i < Reach(inc, q, ignorePrice) <==> Accepts(inc, ignorePrice, Px(q[i]))
  {
    var k := Reach(inc, q, ignorePrice);
    if k <= i {
      assert Rank(q[k]) <= Rank(q[i]) by {
        if k < i {
          assert Sorted(q);
        }
      }
    }
  }
}
