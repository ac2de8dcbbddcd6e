/** Books that differ only in what a clock reading or the trade history can
    make differ behave alike: one command after another they give the same
    replies, trades, sequence numbers and errors. */
module Likeness {
  import opened Types
  import opened Matching
  import opened BookSpec
  import opened Runs

  predicate SameButTime(a: Order, b: Order) {
    a == b.(timestamp := a.timestamp)
  }

  predicate SameTrade(a: Trade, b: Trade) {
    a == b.(timestamp := a.timestamp)
  }

  predicate SameOrders(a: seq<Order>, b: seq<Order>) {
    |a| == |b| && forall i :: 0 <= i < |a| ==> SameButTime(a[i], b[i])
  }

  predicate SameTrades(a: seq<Trade>, b: seq<Trade>) {
    |a| == |b| && forall i :: 0 <= i < |a| ==> SameTrade(a[i], b[i])
  }

  /** Timestamps of orders and the trade history aside, the same book. */
  predicate Alike(a: Book, b: Book) {
    && a.symbol == b.symbol && a.stops == b.stops && a.last == b.last && a.sequence == b.sequence
    && SameOrders(a.bids, b.bids) && SameOrders(a.asks, b.asks)
  }

  predicate SamePlaced(a: Placed, b: Placed) {
    match a
    case OrderPlaced(o) => b.OrderPlaced? && SameButTime(o, b.order)
    case StopPlaced(s) => b == a
  }

  predicate SameReply(a: Reply, b: Reply) {
    && SamePlaced(a.placed, b.placed)
    && SameTrades(a.trades, b.trades)
    && a.triggered == b.triggered
    && SameOrders(a.fills, b.fills)
    && a.marks == b.marks && a.events == b.events
  }

  predicate SameOutcome(a: Result<Reply, Error>, b: Result<Reply, Error>) {
    match a
    case Err(e) => b == Err(e)
    case Ok(r) => b.Ok? && SameReply(r, b.value)
  }

  // ---------------------------------------------------------------- matching

  lemma TailAlike(p: seq<Order>, q: seq<Order>)
    requires SameOrders(p, q) && p != [] && LiveQueue(p) && LiveQueue(q)
    ensures SameButTime(p[0], q[0]) && Live(p[0])
    ensures SameOrders(p[1..], q[1..]) && LiveQueue(p[1..]) && LiveQueue(q[1..])
  {
  }

  lemma HeadAlike(x: Order, y: Order, p: seq<Order>, q: seq<Order>)
    requires SameButTime(x, y) && p != [] && |p| == |q| && SameOrders(p[1..], q[1..])
    ensures SameOrders([x] + p[1..], [y] + q[1..])
  {
  }

  lemma TradeAlike(x: Order, y: Order, p: Order, q: Order, n: int, ts: seq<Trade>, us: seq<Trade>)
    requires SameButTime(x, y) && SameButTime(p, q) && SameTrades(ts, us)
    ensures SameTrades([TradeOf(x, p, n)] + ts, [TradeOf(y, q, n)] + us)
  {
  }

  lemma {:induction false} MatchAlike(x: Order, y: Order, p: seq<Order>, q: seq<Order>, ignorePrice: bool)
    requires Incoming(x) && Incoming(y) && LiveQueue(p) && LiveQueue(q)
    requires !ignorePrice ==> x.price.Some?
    requires SameButTime(x, y) && SameOrders(p, q)
    ensures var m, n := Match(x, p, ignorePrice), Match(y, q, ignorePrice);
            SameButTime(m.incoming, n.incoming) && SameOrders(m.queue, n.queue) && SameTrades(m.trades, n.trades)
    decreases |p|
  {
    hide LiveQueue;
    if !Stops(x, p, ignorePrice) {
      TailAlike(p, q);
      FillsNeverFail(x, p, ignorePrice);
      FillsNeverFail(y, q, ignorePrice);
      var n := Min(x.remaining, p[0].remaining);
      if n == p[0].remaining {
        MatchAlike(FilledBy(x, n), FilledBy(y, n), p[1..], q[1..], ignorePrice);
        TradeAlike(x, y, p[0], q[0], n, Match(FilledBy(x, n), p[1..], ignorePrice).trades,
                   Match(FilledBy(y, n), q[1..], ignorePrice).trades);
      } else {
        HeadAlike(FilledBy(p[0], n), FilledBy(q[0], n), p, q);
      }
    }
  }

  lemma {:induction false} SlotAlike(p: seq<Order>, q: seq<Order>, x: Order, y: Order)
    requires SameOrders(p, q) && SameButTime(x, y)
    ensures Slot(p, x) == Slot(q, y)
  {
    if p != [] {
      assert SameButTime(p[0], q[0]);
      SlotAlike(p[1..], q[1..], x, y);
    }
  }

  lemma InsertAlike(p: seq<Order>, q: seq<Order>, x: Order, y: Order)
    requires SameOrders(p, q) && SameButTime(x, y)
    ensures SameOrders(Insert(p, x), Insert(q, y))
  {
    SlotAlike(p, q, x, y);
  }

  lemma {:induction false} IndexAlike(p: seq<Order>, q: seq<Order>, id: string)
    requires SameOrders(p, q)
    ensures IndexOf(p, id) == IndexOf(q, id)
  {
    if p != [] {
      assert SameButTime(p[0], q[0]);
      IndexAlike(p[1..], q[1..], id);
    }
  }

  lemma TakenAlike(a: Book, b: Book, id: string)
    requires Alike(a, b)
    ensures Taken(a, id) == Taken(b, id)
    ensures Holds(a.bids, id) == Holds(b.bids, id) && Holds(a.asks, id) == Holds(b.asks, id)
  {
    IndexAlike(a.bids, b.bids, id);
    IndexAlike(a.asks, b.asks, id);
  }

  lemma SubmitAlike(a: Book, b: Book, x: Order, y: Order)
    requires Sane(a) && Sane(b) && Incoming(x) && Incoming(y)
    requires Alike(a, b) && SameButTime(x, y)
    ensures var r, s := Submit(a, x), Submit(b, y);
            Alike(r.book, s.book) && SameButTime(r.order, s.order) && SameTrades(r.trades, s.trades)
  {
    hide Match, Insert, LiveQueue, SameOrders, SameTrades;
    var ignorePrice := x.typ != Limit;
    MatchAlike(x, y, Opposite(a, x.side), Opposite(b, x.side), ignorePrice);
    var m, n := Match(x, Opposite(a, x.side), ignorePrice), Match(y, Opposite(b, x.side), ignorePrice);
    InsertAlike(Own(a, x.side), Own(b, x.side), m.incoming, n.incoming);
  }

  // ----------------------------------------------------------------- cascade

  predicate CascadeAlike(c: Cascade, d: Cascade) {
    && Alike(c.book, d.book)
    && SameTrades(c.trades, d.trades)
    && c.triggered == d.triggered
    && SameOrders(c.fills, d.fills)
    && c.events == d.events && c.marks == d.marks && c.error == d.error
  }

  lemma ThenAlike(c: Cascade, d: Cascade, c': Cascade, d': Cascade)
    requires CascadeAlike(c, d) && CascadeAlike(c', d')
    ensures CascadeAlike(Then(c, c'), Then(d, d'))
  {
    hide Alike;
  }

  lemma NothingAlike(a: Book, b: Book)
    requires Alike(a, b)
    ensures CascadeAlike(Nothing(a), Nothing(b))
  {
  }

  lemma RunStopAlike(a: Book, b: Book, s: Stop, now: nat, later: nat)
    requires Sane(a) && Sane(b) && Alike(a, b)
    ensures CascadeAlike(RunStop(a, s, now), RunStop(b, s, later))
  {
    hide Submit, LiveQueue, WithoutStop;
    var a', b' := a.(stops := WithoutStop(a.stops, s.id)), b.(stops := WithoutStop(b.stops, s.id));
    var x, y := NewOrder(a.symbol, TriggeredType(s), StopInput(s, now)),
                NewOrder(b.symbol, TriggeredType(s), StopInput(s, later));
    if x.Ok? {
      SubmitAlike(a', b', x.value, y.value);
    }
  }

  lemma {:induction false} RunStopsAlike(a: Book, b: Book, el: seq<Stop>, k: Clock, l: Clock)
    requires Sane(a) && Sane(b) && Alike(a, b)
    ensures CascadeAlike(RunStops(a, el, k), RunStops(b, el, l))
    decreases |el|
  {
    hide Sane, RunStop, Then;
    NothingAlike(a, b);
    if el != [] {
      RunStopAlike(a, b, el[0], k(el[0].id), l(el[0].id));
      var c, d := RunStop(a, el[0], k(el[0].id)), RunStop(b, el[0], l(el[0].id));
      if c.error.None? {
        RunStopsAlike(c.book, d.book, el[1..], k, l);
        ThenAlike(c, d, RunStops(c.book, el[1..], k), RunStops(d.book, el[1..], l));
      }
    }
  }

  lemma CycleAlike(a: Book, b: Book, price: int, k: Clock, l: Clock)
    requires Sane(a) && Sane(b) && Alike(a, b)
    ensures CascadeAlike(Cycle(a, price, k), Cycle(b, price, l))
  {
    hide RunStops, EligibleStops, LiveQueue, SameOrders;
    var a', b' := Mark(a, price), Mark(b, price);
    RunStopsAlike(a', b', EligibleStops(a'.stops, price), k, l);
    NothingAlike(a', b');
    ThenAlike(Nothing(a').(marks := [price]), Nothing(b').(marks := [price]),
              RunStops(a', EligibleStops(a'.stops, price), k), RunStops(b', EligibleStops(b'.stops, price), l));
  }

  lemma {:induction false} CyclesAlike(a: Book, b: Book, ts: seq<Trade>, us: seq<Trade>, cycle: nat, k: Clock, l: Clock)
    requires Sane(a) && Sane(b) && Alike(a, b) && SameTrades(ts, us)
    ensures CascadeAlike(Cycles(a, ts, cycle, k), Cycles(b, us, cycle, l))
    decreases if cycle > MAX_CYCLES then 0 else MAX_CYCLES + 1 - cycle
  {
    hide Sane, Cycle, Alike;
    NothingAlike(a, b);
    if ts != [] && cycle <= MAX_CYCLES {
      var price := LastPrice(ts);
      assert SameTrade(ts[|ts| - 1], us[|us| - 1]);
      CycleAlike(a, b, price, k, l);
      var c, d := Cycle(a, price, k), Cycle(b, price, l);
      if c.error.None? {
        CyclesAlike(c.book, d.book, c.trades, d.trades, cycle + 1, k, l);
        ThenAlike(c, d, Cycles(c.book, c.trades, cycle + 1, k), Cycles(d.book, d.trades, cycle + 1, l));
      }
    }
  }

  // ---------------------------------------------------------------- commands

  predicate StepAlike(s: Step, t: Step) {
    Alike(s.book, t.book) && SameOutcome(s.outcome, t.outcome)
  }

  lemma FinalOrderAlike(a: Book, b: Book, x: Order, y: Order)
    requires Alike(a, b) && SameButTime(x, y)
    ensures SameButTime(FinalOrder(a, x), FinalOrder(b, y))
  {
    IndexAlike(Own(a, x.side), Own(b, x.side), x.id);
  }

  lemma PlaceAlike(a: Book, b: Book, typ: OrderType, input: Input, k: Clock, l: Clock)
    requires Sane(a) && Sane(b) && Alike(a, b)
    ensures StepAlike(Place(a, typ, input, k), Place(b, typ, input, l))
  {
    hide Submit, Cycles, LiveQueue, SameOrders, SameTrades, Taken, FinalOrder;
    TakenAlike(a, b, input.orderId);
    if !Taken(a, input.orderId) && NewOrder(a.symbol, typ, input).Ok? {
      var o := NewOrder(a.symbol, typ, input).value;
      SubmitAlike(a, b, o, o);
      var r, s := Submit(a, o), Submit(b, o);
      CyclesAlike(r.book, s.book, r.trades, s.trades, 1, k, l);
      var c, d := Cycles(r.book, r.trades, 1, k), Cycles(s.book, s.trades, 1, l);
      FinalOrderAlike(c.book, d.book, r.order, s.order);
      AppendAlike(r, s, c, d);
    }
  }

  lemma AppendAlike(r: Submitted, s: Submitted, c: Cascade, d: Cascade)
    requires SameButTime(r.order, s.order) && SameTrades(r.trades, s.trades) && CascadeAlike(c, d)
    ensures SameTrades(r.trades + c.trades, s.trades + d.trades)
    ensures SameOrders([r.order] + c.fills, [s.order] + d.fills)
    ensures |r.trades| == |s.trades|
  {
  }

  lemma CancelOnSideAlike(a: Book, b: Book, side: Side, id: string)
    requires Sane(a) && Sane(b) && Alike(a, b) && Holds(Own(a, side), id) && Holds(Own(b, side), id)
    ensures StepAlike(CancelOnSide(a, side, id), CancelOnSide(b, side, id))
  {
    hide LiveQueue;
    var p, q := Own(a, side), Own(b, side);
    IndexAlike(p, q, id);
    var k := IndexOf(p, id);
    assert SameButTime(p[k], q[k]);
    assert SameOrders(p[..k] + p[k + 1..], q[..k] + q[k + 1..]);
  }

  lemma CancelAlike(a: Book, b: Book, id: string)
    requires Sane(a) && Sane(b) && Alike(a, b)
    ensures StepAlike(CancelById(a, id), CancelById(b, id))
  {
    hide CancelOnSide, SameOrders, LiveQueue;
    TakenAlike(a, b, id);
    EmptyAlike();
    if !HoldsStop(a.stops, id) {
      if Holds(a.bids, id) {
        CancelOnSideAlike(a, b, Buy, id);
      } else if Holds(a.asks, id) {
        CancelOnSideAlike(a, b, Sell, id);
      }
    }
  }

  lemma PlaceStopAlike(a: Book, b: Book, typ: OrderType, input: Input, peak: Option<int>, valley: Option<int>)
    requires Sane(a) && Sane(b) && Alike(a, b)
    ensures StepAlike(PlaceStop(a, typ, input, peak, valley), PlaceStop(b, typ, input, peak, valley))
  {
    hide LiveQueue, SameOrders, Taken;
    TakenAlike(a, b, input.orderId);
    EmptyAlike();
  }

  lemma EmptyAlike()
    ensures SameOrders([], []) && SameTrades([], [])
  {
  }

  /** Alike books answer a command alike, whatever the two clocks say, and stay alike. */
  lemma ExecAlike(a: Book, b: Book, c: Command, k: Clock, l: Clock)
    requires Sane(a) && Sane(b) && Alike(a, b)
    ensures StepAlike(Exec(a, c, k), Exec(b, c, l))
  {
    hide Place, PlaceStop, CancelById, LiveQueue, SameOrders;
    match c
    case PlaceLimit(input) => PlaceAlike(a, b, Limit, input, k, l);
    case PlaceMarket(input) => PlaceAlike(a, b, Market, input, k, l);
    case PlaceStopMarket(input) => PlaceStopAlike(a, b, StopMarket, input, None, None);
    case PlaceStopLimit(input) => PlaceStopAlike(a, b, StopLimit, input, None, None);
    case PlaceTrailingStopMarket(input) =>
      if a.last.Some? && input.trailingAmount.Some? && input.side.Some? {
        var last, amount := a.last.value, input.trailingAmount.value;
        if input.side.value == Sell {
          PlaceStopAlike(a, b, TrailingStopMarket, input.(trigger := Some(last - amount)), Some(last), None);
        } else {
          PlaceStopAlike(a, b, TrailingStopMarket, input.(trigger := Some(last + amount)), None, Some(last));
        }
      }
    case Cancel(id) => CancelAlike(a, b, id);
    case Malformed =>
    case Unsupported =>
  }

  // --------------------------------------------------------------------- runs

  /** The same commands; the clocks may read differently. */
  predicate SameCommands(rs: seq<Request>, ss: seq<Request>) {
    |rs| == |ss| && forall i :: 0 <= i < |rs| ==> rs[i].command == ss[i].command
  }

  /** The outcomes of a run, command by command. */
  function Outcomes(b: Book, rs: seq<Request>): (os: seq<Result<Reply, Error>>)
    requires Sane(b)
    ensures |os| == |rs|
    decreases |rs|
  {
    if rs == [] then [] else [Next(b, rs[0]).outcome] + Outcomes(Next(b, rs[0]).book, rs[1..])
  }

  lemma {:induction false} RunAlike(a: Book, b: Book, rs: seq<Request>, ss: seq<Request>)
    requires Sane(a) && Sane(b) && Alike(a, b) && SameCommands(rs, ss)
    ensures Alike(Run(a, rs), Run(b, ss))
    ensures forall i :: 0 <= i < |rs| ==> SameOutcome(Outcomes(a, rs)[i], Outcomes(b, ss)[i])
    decreases |rs|
  {
    hide Sane, Exec, Alike, SameOutcome;
    if rs != [] {
      ExecAlike(a, b, rs[0].command, rs[0].clock, ss[0].clock);
      RunAlike(Next(a, rs[0]).book, Next(b, ss[0]).book, rs[1..], ss[1..]);
    }
  }

  lemma AlikeIsEquivalence(a: Book, b: Book, c: Book)
    ensures Alike(a, a)
    ensures Alike(a, b) ==> Alike(b, a)
    ensures Alike(a, b) && Alike(b, c) ==> Alike(a, c)
  {
    if Alike(a, b) && Alike(b, c) {
      forall i | 0 <= i < |a.bids|
        ensures SameButTime(a.bids[i], c.bids[i])
      {
        assert SameButTime(a.bids[i], b.bids[i]) && SameButTime(b.bids[i], c.bids[i]);
      }
      forall i | 0 <= i < |a.asks|
        ensures SameButTime(a.asks[i], c.asks[i])
      {
        assert SameButTime(a.asks[i], b.asks[i]) && SameButTime(b.asks[i], c.asks[i]);
      }
    }
  }

  /** A book that has moved on is no longer like it was. */
  lemma MovedOnIsUnlike(b: Book, b': Book)
    requires MovedOn(b, b')
    ensures !Alike(b', b)
  {
  }

  /** Moving on from a book that is like, or itself moved on from, another. */
  lemma MovedFrom(a: Book, b: Book, c: Book)
    requires MovedOn(b, c) && (Alike(b, a) || MovedOn(a, b))
    ensures MovedOn(a, c)
  {
  }
}
