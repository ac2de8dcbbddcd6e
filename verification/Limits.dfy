/** No order trades at a price worse than its limit: not when it arrives, not
    when it is hit while it rests, and not when it waits as a stop-limit order
    and is triggered, through whole cascades and whole runs. */
module Limits {
  import opened Types
  import opened Matching
  import opened BookSpec
  import opened Invariant
  import opened StopCascade
  import opened Runs
  import opened Accounting
  import opened Trailing

  /** What an id deals on a side is at no worse than a limit. */
  predicate NoWorse(ts: seq<Trade>, side: Side, id: string, limit: int) {
    forall t :: t in ts && Party(t, side) == id ==> if side == Buy then t.price <= limit else t.price >= limit
  }

  lemma NoWorseThen(ts: seq<Trade>, us: seq<Trade>, side: Side, id: string, limit: int)
    requires NoWorse(ts, side, id, limit) && NoWorse(us, side, id, limit)
    ensures NoWorse(ts + us, side, id, limit)
  {
  }

  predicate OrderBound(o: Order, id: string, side: Side, limit: int) {
    o.id == id ==> o.side == side && o.typ == Limit && o.price == Some(limit)
  }

  predicate StopBound(s: Stop, id: string, side: Side, limit: int) {
    s.id == id ==> s.side == side && s.typ == StopLimit && s.price == Some(limit)
  }

  /** Wherever the book has an id, as a resting order or a pending stop-limit order, it has this side and limit. */
  ghost predicate Bound(b: Book, id: string, side: Side, limit: int) {
    && (forall o :: o in b.bids || o in b.asks ==> OrderBound(o, id, side, limit))
    && (forall s :: s in b.stops ==> StopBound(s, id, side, limit))
  }

  predicate FillsBound(fills: seq<Order>, id: string, side: Side, limit: int) {
    forall f :: f in fills ==> OrderBound(f, id, side, limit)
  }

  // ---------------------------------------------------------------- matching

  lemma MatchBound(inc: Order, q: seq<Order>, ignorePrice: bool, id: string, side: Side, limit: int)
    requires Incoming(inc) && LiveQueue(q) && (!ignorePrice ==> inc.price.Some?)
    requires forall i :: 0 <= i < |q| ==> q[i].side != inc.side && OrderBound(q[i], id, side, limit)
    requires OrderBound(inc, id, side, limit) && (inc.id == id ==> !ignorePrice)
    ensures var m := Match(inc, q, ignorePrice);
            NoWorse(m.trades, side, id, limit) && forall o :: o in m.queue ==> OrderBound(o, id, side, limit)
  {
    hide Match, Incoming, Live, Depth, Leftover;
    var m := Match(inc, q, ignorePrice);
    MatchClosedForm(inc, q, ignorePrice);
    MatchQueue(inc, q, ignorePrice);
    forall t | t in m.trades && Party(t, side) == id
      ensures if side == Buy then t.price <= limit else t.price >= limit
    {
      var i :| 0 <= i < |m.trades| && m.trades[i] == t;
      assert Between(t, inc, q[i]) && Accepts(inc, ignorePrice, Px(q[i]));
    }
    MatchLeavesEnd(inc, q, ignorePrice);
    forall o | o in m.queue
      ensures OrderBound(o, id, side, limit)
    {
      var i :| 0 <= i < |m.queue| && m.queue[i] == o;
      assert SameOrder(q[|q| - |m.queue| + i], o);
    }
  }

  lemma SubmitBound(b: Book, o: Order, id: string, side: Side, limit: int)
    requires WF(b) && Submittable(b, o) && Bound(b, id, side, limit) && OrderBound(o, id, side, limit)
    ensures var r := Submit(b, o);
            && Bound(r.book, id, side, limit) && NoWorse(r.trades, side, id, limit)
            && OrderBound(r.order, id, side, limit)
  {
    hide Match, LiveQueue, Sorted, Ids, StopIds, StopsOk, Taken, Slot;
    var q := Opposite(b, o.side);
    var m := Match(o, q, o.typ != Limit);
    MatchBound(o, q, o.typ != Limit, id, side, limit);
    var own := Insert(Own(b, o.side), m.incoming);
    forall x | x in own
      ensures OrderBound(x, id, side, limit)
    {
      InsertedOne(Own(b, o.side), m.incoming, x);
    }
  }

  lemma InsertedOne(q: seq<Order>, o: Order, x: Order)
    requires x in Insert(q, o)
    ensures x in q || x == o
  {
  }

  // ----------------------------------------------------------------- cascade

  lemma RunStopBound(b: Book, s: Stop, now: nat, id: string, side: Side, limit: int)
    requires WF(b) && s in b.stops && RunStop(b, s, now).error.None? && Bound(b, id, side, limit)
    ensures var c := RunStop(b, s, now);
            && Bound(c.book, id, side, limit) && NoWorse(c.trades, side, id, limit) && FillsBound(c.fills, id, side, limit)
  {
    hide WF, Submit, RunStop, WithoutStop, Taken, Bound, NoWorse;
    var o := RunStopSubmits(b, s, now);
    var b' := b.(stops := WithoutStop(b.stops, s.id));
    FewerBound(b, s.id, id, side, limit);
    PendingBound(b, s, id, side, limit);
    SubmitBound(b', o, id, side, limit);
  }

  lemma PendingBound(b: Book, s: Stop, id: string, side: Side, limit: int)
    requires Bound(b, id, side, limit) && s in b.stops
    ensures StopBound(s, id, side, limit)
  {
  }

  lemma FewerBound(b: Book, gone: string, id: string, side: Side, limit: int)
    requires WF(b) && Bound(b, id, side, limit)
    ensures Bound(b.(stops := WithoutStop(b.stops, gone)), id, side, limit)
  {
    hide StopIndex, OrderBound, StopBound;
    var w := WithoutStop(b.stops, gone);
    assert forall s :: s in w ==> s in b.stops;
  }

  lemma {:induction false} RunStopsBound(b: Book, el: seq<Stop>, clock: Clock, id: string, side: Side, limit: int)
    requires WF(b) && Waiting(b, el) && RunStops(b, el, clock).error.None? && Bound(b, id, side, limit)
    ensures var c := RunStops(b, el, clock);
            && Bound(c.book, id, side, limit) && NoWorse(c.trades, side, id, limit) && FillsBound(c.fills, id, side, limit)
    decreases |el|
  {
    hide WF, Waiting, RunStop, RunStops, Sane, Bound, NoWorse, OrderBound;
    WFSane(b);
    if el == [] {
      NoStops(b, clock);
      NothingTraded(side, id, limit);
    } else {
      RunStopsParts(b, el, clock);
      var c := RunStop(b, el[0], clock(el[0].id));
      RunStopBound(b, el[0], clock(el[0].id), id, side, limit);
      RunStopsBound(c.book, el[1..], clock, id, side, limit);
      NoWorseThen(c.trades, RunStops(c.book, el[1..], clock).trades, side, id, limit);
    }
  }

  lemma NothingTraded(side: Side, id: string, limit: int)
    ensures NoWorse([], side, id, limit)
  {
  }

  lemma MarkBound(b: Book, price: int, id: string, side: Side, limit: int)
    requires Bound(b, id, side, limit)
    ensures Bound(Mark(b, price), id, side, limit)
  {
    hide OrderBound;
    forall s | s in Mark(b, price).stops
      ensures StopBound(s, id, side, limit)
    {
      var i :| 0 <= i < |b.stops| && s == Trail(b.stops[i], price);
      assert StopBound(b.stops[i], id, side, limit);
    }
  }

  lemma CycleBound(b: Book, price: int, clock: Clock, id: string, side: Side, limit: int)
    requires WF(b) && Cycle(b, price, clock).error.None? && Bound(b, id, side, limit)
    ensures var c := Cycle(b, price, clock);
            && Bound(c.book, id, side, limit) && NoWorse(c.trades, side, id, limit) && FillsBound(c.fills, id, side, limit)
  {
    hide WF, Waiting, RunStops, Sane, EligibleStops, Mark, Bound, NoWorse, OrderBound;
    MarkBound(b, price, id, side, limit);
    WFSane(b);
    MarkKeepsWF(b, price);
    var b1 := Mark(b, price);
    EligibleWaiting(b1, price);
    CycleParts(b, price, clock);
    RunStopsBound(b1, EligibleStops(b1.stops, price), clock, id, side, limit);
  }

  lemma {:induction false} CascadeBound(b: Book, latest: seq<Trade>, cycle: nat, clock: Clock,
                                        id: string, side: Side, limit: int)
    requires WF(b) && Cycles(b, latest, cycle, clock).error.None? && Bound(b, id, side, limit)
    ensures var c := Cycles(b, latest, cycle, clock);
            && Bound(c.book, id, side, limit) && NoWorse(c.trades, side, id, limit) && FillsBound(c.fills, id, side, limit)
    decreases if cycle > MAX_CYCLES then 0 else MAX_CYCLES + 1 - cycle
  {
    hide WF, Cycle, Cycles, Sane, Bound, NoWorse, OrderBound;
    WFSane(b);
    if latest == [] {
      NoCycles(b, cycle, clock);
      NothingTraded(side, id, limit);
    } else {
      CyclesParts(b, latest, cycle, clock);
      var c := Cycle(b, LastPrice(latest), clock);
      CycleBound(b, LastPrice(latest), clock, id, side, limit);
      CascadeBound(c.book, c.trades, cycle + 1, clock, id, side, limit);
      NoWorseThen(c.trades, Cycles(c.book, c.trades, cycle + 1, clock).trades, side, id, limit);
    }
  }

  // ---------------------------------------------------------------- commands

  lemma PlaceBound(b: Book, typ: OrderType, input: Input, clock: Clock, id: string, side: Side, limit: int)
    requires WF(b) && typ in {Limit, Market} && Place(b, typ, input, clock).outcome.Ok? && Bound(b, id, side, limit)
    requires input.orderId == id ==> typ == Limit && input.side == Some(side) && input.price == Some(limit)
    ensures var s := Place(b, typ, input, clock);
            && Bound(s.book, id, side, limit) && NoWorse(s.outcome.value.trades, side, id, limit)
            && FillsBound(s.outcome.value.fills, id, side, limit)
  {
    hide WF, Taken, Submit, Cycles, LiveQueue, NoWorse;
    WFSane(b);
    var o := NewOrder(b.symbol, typ, input).value;
    SubmitKeepsWF(b, o);
    SubmitFrame(b, o);
    SubmitBound(b, o, id, side, limit);
    var r := Submit(b, o);
    CascadeBound(r.book, r.trades, 1, clock, id, side, limit);
    NoWorseThen(r.trades, Cycles(r.book, r.trades, 1, clock).trades, side, id, limit);
  }

  predicate Places(c: Command, id: string) {
    match c
    case PlaceLimit(input) => input.orderId == id
    case PlaceMarket(input) => input.orderId == id
    case PlaceStopMarket(input) => input.orderId == id
    case PlaceStopLimit(input) => input.orderId == id
    case PlaceTrailingStopMarket(input) => input.orderId == id
    case _ => false
  }

  /** The command places the id, if at all, as a limit or stop-limit order of this side and limit. */
  predicate PlacesBound(c: Command, id: string, side: Side, limit: int) {
    match c
    case PlaceLimit(input) => input.orderId == id ==> input.side == Some(side) && input.price == Some(limit)
    case PlaceStopLimit(input) => input.orderId == id ==> input.side == Some(side) && input.price == Some(limit)
    case _ => !Places(c, id)
  }

  lemma StopsBound(b: Book, typ: OrderType, input: Input, peak: Option<int>, valley: Option<int>,
                   id: string, side: Side, limit: int)
    requires WF(b) && Bound(b, id, side, limit)
    requires input.orderId == id ==> typ == StopLimit && input.side == Some(side) && input.price == Some(limit)
    ensures Sane(b) && Bound(PlaceStop(b, typ, input, peak, valley).book, id, side, limit)
  {
    hide Taken, OrderBound, LiveQueue, SideOk, Apart;
  }

  lemma CancelBound(b: Book, gone: string, id: string, side: Side, limit: int)
    requires WF(b) && Bound(b, id, side, limit)
    ensures Sane(b) && Bound(CancelById(b, gone).book, id, side, limit)
  {
    hide IndexOf, StopIndex, OrderBound, StopBound, LiveQueue, SideOk, Apart;
    FewerBound(b, gone, id, side, limit);
    WithoutIn(b.bids, gone);
    WithoutIn(b.asks, gone);
  }

  lemma WithoutIn(q: seq<Order>, id: string)
    ensures forall o :: o in Without(q, id) ==> o in q
  {
    hide IndexOf;
  }

  lemma NextBound(b: Book, r: Request, id: string, side: Side, limit: int)
    requires Good(b) && CleanCommand(r.command) && Roomy(b, r.command)
    requires Bound(b, id, side, limit) && PlacesBound(r.command, id, side, limit)
    ensures Sane(b)
    ensures Bound(Next(b, r).book, id, side, limit) && NoWorse(TradesOf(Next(b, r)), side, id, limit)
  {
    hide WF, Clean, Place, PlaceStop, CancelById, Bound, NoWorse;
    WFSane(b);
    NextKeepsGood(b, r);
    NothingTraded(side, id, limit);
    if Next(b, r).outcome.Ok? {
      match r.command
      case PlaceLimit(input) => PlaceBound(b, Limit, input, r.clock, id, side, limit);
      case PlaceMarket(input) => PlaceBound(b, Market, input, r.clock, id, side, limit);
      case Cancel(gone) =>
        CancelBound(b, gone, id, side, limit);
        NoTrades(b, r);
      case PlaceStopMarket(input) =>
        StopsBound(b, StopMarket, input, None, None, id, side, limit);
        NoTrades(b, r);
      case PlaceStopLimit(input) =>
        StopsBound(b, StopLimit, input, None, None, id, side, limit);
        NoTrades(b, r);
      case PlaceTrailingStopMarket(input) =>
        TrailingBound(b, input, id, side, limit);
        NoTrades(b, r);
    }
  }

  lemma TrailingBound(b: Book, input: Input, id: string, side: Side, limit: int)
    requires WF(b) && Bound(b, id, side, limit) && input.orderId != id
    ensures Sane(b) && Bound(PlaceTrailing(b, input).book, id, side, limit)
  {
    hide WF, PlaceStop, Bound;
    WFSane(b);
    if b.last.Some? && input.trailingAmount.Some? {
      var last, amount := b.last.value, input.trailingAmount.value;
      StopsBound(b, TrailingStopMarket, input.(trigger := Some(last - amount)), Some(last), None, id, side, limit);
      StopsBound(b, TrailingStopMarket, input.(trigger := Some(last + amount)), None, Some(last), id, side, limit);
    }
  }

  /** Only limit and market orders trade. */
  lemma NoTrades(b: Book, r: Request)
    requires Sane(b) && !r.command.PlaceLimit? && !r.command.PlaceMarket?
    ensures TradesOf(Next(b, r)) == []
  {
    hide Sane, Taken, IndexOf, StopIndex;
  }

  lemma {:induction false} RunBound(b: Book, rs: seq<Request>, id: string, side: Side, limit: int)
    requires Good(b) && Admissible(b, rs) && Bound(b, id, side, limit)
    requires forall i :: 0 <= i < |rs| ==> PlacesBound(rs[i].command, id, side, limit)
    ensures Bound(Run(b, rs), id, side, limit) && NoWorse(RunTrades(b, rs), side, id, limit)
    decreases |rs|
  {
    hide Good, Exec, Sane, Bound, NoWorse, TradesOf, PlacesBound;
    GoodSane(b);
    NothingTraded(side, id, limit);
    if rs != [] {
      var s := Next(b, rs[0]);
      NextKeepsGood(b, rs[0]);
      NextBound(b, rs[0], id, side, limit);
      RunBound(s.book, rs[1..], id, side, limit);
      NoWorseThen(TradesOf(s), RunTrades(s.book, rs[1..]), side, id, limit);
    }
  }

  lemma FreeBound(b: Book, id: string, side: Side, limit: int)
    requires !Taken(b, id)
    ensures Bound(b, id, side, limit)
  {
    TakenMeans(b, id);
  }

  /** Limits hold: over any run in which an id that is free at first is only ever placed as a limit or stop-limit order
      of one side and limit, everything it buys is at no more, or everything it sells at no less, than its limit. */
  lemma LimitsHold(b: Book, rs: seq<Request>, id: string, side: Side, limit: int)
    requires Good(b) && Admissible(b, rs) && !Taken(b, id)
    requires forall i :: 0 <= i < |rs| ==> PlacesBound(rs[i].command, id, side, limit)
    ensures Sane(b)
    ensures forall t :: t in RunTrades(b, rs) ==>
              && (side == Buy && t.buyId == id ==> t.price <= limit)
              && (side == Sell && t.sellId == id ==> t.price >= limit)
  {
    hide Good, Taken, Bound, RunTrades, PlacesBound, Admissible;
    GoodSane(b);
    FreeBound(b, id, side, limit);
    RunBound(b, rs, id, side, limit);
  }
}
