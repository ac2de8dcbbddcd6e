/** The quantity ledger: nothing that was accepted is ever lost or made up. */
module Ledger {
  import opened Types
  import opened Matching
  import opened BookSpec
  import opened Invariant
  import opened StopCascade
  import opened Runs
  import opened Accounting

  function Pending(stops: seq<Stop>, side: Side): int {
    if stops == [] then 0
    else (if stops[0].side == side then stops[0].remaining else 0) + Pending(stops[1..], side)
  }

  /** Everything of a side that is still in the book: resting or waiting as a stop. */
  function Held(b: Book, side: Side): int {
    Sum(Own(b, side)) + Pending(b.stops, side)
  }

  /** What was dropped from a market order that the book could not fill. */
  function DroppedFrom(o: Order, side: Side): int {
    if o.side == side && o.status == Cancelled then o.remaining else 0
  }

  function Dropped(fills: seq<Order>, side: Side): int {
    if fills == [] then 0 else DroppedFrom(fills[0], side) + Dropped(fills[1..], side)
  }

  // ------------------------------------------------------------ sums of parts

  lemma SumInsert(q: seq<Order>, o: Order)
    ensures Sum(Insert(q, o)) == Sum(q) + o.remaining
  {
    var k := Slot(q, o);
    SumAppend(q[..k], [o]);
    SumAppend(q[..k] + [o], q[k..]);
    SumAppend(q[..k], q[k..]);
    assert q[..k] + q[k..] == q;
    assert Sum([o]) == o.remaining;
  }

  lemma SumWithout(q: seq<Order>, id: string)
    requires Holds(q, id)
    ensures Sum(Without(q, id)) == Sum(q) - q[IndexOf(q, id)].remaining
  {
    hide IndexOf;
    SumAround(q, IndexOf(q, id));
  }

  lemma {:induction false} PendingAppend(a: seq<Stop>, b: seq<Stop>, side: Side)
    ensures Pending(a + b, side) == Pending(a, side) + Pending(b, side)
  {
    if a == [] {
      assert a + b == b;
    } else {
      assert (a + b)[0] == a[0] && (a + b)[1..] == a[1..] + b;
      PendingAppend(a[1..], b, side);
    }
  }

  lemma PendingWithout(stops: seq<Stop>, id: string, side: Side)
    requires HoldsStop(stops, id)
    ensures var s := stops[StopIndex(stops, id)];
            Pending(WithoutStop(stops, id), side)
            == Pending(stops, side) - (if s.side == side then s.remaining else 0)
  {
    hide StopIndex;
    var k := StopIndex(stops, id);
    PendingAppend(stops[..k], stops[k + 1..], side);
    PendingAppend(stops[..k], stops[k..], side);
    assert stops[..k] + stops[k..] == stops;
    assert stops[k..][1..] == stops[k + 1..];
  }

  lemma {:induction false} PendingTrail(stops: seq<Stop>, price: int, side: Side)
    ensures Pending(TrailAll(stops, price), side) == Pending(stops, side)
  {
    if stops != [] {
      PendingTrail(stops[1..], price, side);
    }
  }

  lemma {:induction false} DroppedAppend(a: seq<Order>, b: seq<Order>, side: Side)
    ensures Dropped(a + b, side) == Dropped(a, side) + Dropped(b, side)
  {
    if a == [] {
      assert a + b == b;
    } else {
      assert (a + b)[0] == a[0] && (a + b)[1..] == a[1..] + b;
      DroppedAppend(a[1..], b, side);
    }
  }

  // ---------------------------------------------------------------- matching

  /** What the queue loses and what the incoming order loses is what is traded. */
  lemma {:induction false} MatchConserves(inc: Order, q: seq<Order>, ignorePrice: bool)
    requires Incoming(inc) && LiveQueue(q)
    requires !ignorePrice ==> inc.price.Some?
    ensures var m := Match(inc, q, ignorePrice);
            && Sum(m.queue) == Sum(q) - Traded(m.trades)
            && m.incoming.remaining == inc.remaining - Traded(m.trades)
    decreases |q|
  {
    if !Stops(inc, q, ignorePrice) {
      FillsNeverFail(inc, q, ignorePrice);
      var n := Min(inc.remaining, q[0].remaining);
      var m := Match(inc, q, ignorePrice);
      if n == q[0].remaining {
        MatchConserves(FilledBy(inc, n), q[1..], ignorePrice);
        assert m.trades[1..] == Match(FilledBy(inc, n), q[1..], ignorePrice).trades;
      } else {
        assert m.trades[1..] == [] && m.queue[1..] == q[1..];
      }
    }
  }

  lemma SubmitConserves(b: Book, o: Order, side: Side)
    requires Sane(b) && Incoming(o)
    ensures var r := Submit(b, o);
            && Sum(Own(r.book, side)) == Sum(Own(b, side)) - Traded(r.trades) - DroppedFrom(r.order, side)
                                         + (if side == o.side then o.remaining else 0)
            && r.book.stops == b.stops
  {
    hide Match, Insert, LiveQueue;
    var q := Opposite(b, o.side);
    var m := Match(o, q, o.typ != Limit);
    MatchConserves(o, q, o.typ != Limit);
    SumInsert(Own(b, o.side), m.incoming);
  }

  // ----------------------------------------------------------------- cascade

  lemma RunStopConserves(b: Book, s: Stop, now: nat, side: Side)
    requires WF(b) && s in b.stops && RunStop(b, s, now).error.None?
    ensures var c := RunStop(b, s, now);
            Held(c.book, side) == Held(b, side) - Traded(c.trades) - Dropped(c.fills, side)
  {
    hide WF, Submit, WithoutStop, Pending, Sum, LiveQueue;
    WFSane(b);
    ListedStop(b, s);
    PendingWithout(b.stops, s.id, side);
    var b' := b.(stops := WithoutStop(b.stops, s.id));
    var o := NewOrder(b.symbol, TriggeredType(s), StopInput(s, now)).value;
    SubmitConserves(b', o, side);
    DroppedSingle(Submit(b', o).order, side);
  }

  lemma DroppedSingle(o: Order, side: Side)
    ensures Dropped([o], side) == DroppedFrom(o, side)
  {
    assert [o][1..] == [];
  }

  lemma {:induction false} RunStopsConserve(b: Book, el: seq<Stop>, clock: Clock, side: Side)
    requires WF(b) && Waiting(b, el) && RunStops(b, el, clock).error.None?
    ensures var c := RunStops(b, el, clock);
            Held(c.book, side) == Held(b, side) - Traded(c.trades) - Dropped(c.fills, side)
    decreases |el|
  {
    hide WF, Waiting, RunStop, Held, Traded, Dropped;
    WFSane(b);
    EmptySums(side);
    if el != [] {
      var now := clock(el[0].id);
      HeadIsPending(b, el);
      RunStopKeepsWF(b, el[0], now);
      WaitingTail(b, el, now);
      var c := RunStop(b, el[0], now);
      RunStopConserves(b, el[0], now, side);
      RunStopsConserve(c.book, el[1..], clock, side);
      var d := RunStops(c.book, el[1..], clock);
      TradedAppend(c.trades, d.trades);
      DroppedAppend(c.fills, d.fills, side);
    }
  }

  lemma EmptySums(side: Side)
    ensures Traded([]) == 0 && Dropped([], side) == 0
  {
  }

  lemma CycleConserves(b: Book, price: int, clock: Clock, side: Side)
    requires WF(b) && Cycle(b, price, clock).error.None?
    ensures var c := Cycle(b, price, clock);
            Held(c.book, side) == Held(b, side) - Traded(c.trades) - Dropped(c.fills, side)
  {
    hide WF, Waiting, RunStops, EligibleStops, Traded, Dropped, Pending, Sum;
    WFSane(b);
    MarkKeepsWF(b, price);
    var b1 := Mark(b, price);
    var el := EligibleStops(b1.stops, price);
    EligibleWaiting(b1, price);
    RunStopsConserve(b1, el, clock, side);
    CycleParts(b, price, clock);
    PendingTrail(b.stops, price, side);
  }

  lemma {:induction false} CyclesConserve(b: Book, latest: seq<Trade>, cycle: nat, clock: Clock, side: Side)
    requires WF(b) && Cycles(b, latest, cycle, clock).error.None?
    ensures var c := Cycles(b, latest, cycle, clock);
            Held(c.book, side) == Held(b, side) - Traded(c.trades) - Dropped(c.fills, side)
    decreases if cycle > MAX_CYCLES then 0 else MAX_CYCLES + 1 - cycle
  {
    hide WF, Cycle, Held, Traded, Dropped;
    WFSane(b);
    EmptySums(side);
    if latest != [] {
      var price := LastPrice(latest);
      CycleKeepsWF(b, price, clock);
      CycleConserves(b, price, clock, side);
      var c := Cycle(b, price, clock);
      CyclesConserve(c.book, c.trades, cycle + 1, clock, side);
      var d := Cycles(c.book, c.trades, cycle + 1, clock);
      TradedAppend(c.trades, d.trades);
      DroppedAppend(c.fills, d.fills, side);
    }
  }

  // ---------------------------------------------------------------- commands

  /** What a successful command adds to a side's ledger. */
  datatype Tally = Tally(accepted: int, traded: int, cancelled: int)

  function Plus(a: Tally, b: Tally): Tally {
    Tally(a.accepted + b.accepted, a.traded + b.traded, a.cancelled + b.cancelled)
  }

  function SideOf(p: Placed): Side {
    match p case OrderPlaced(o) => o.side case StopPlaced(s) => s.side
  }

  function SizeOf(p: Placed): int {
    match p case OrderPlaced(o) => o.initial case StopPlaced(s) => s.quantity
  }

  function LeftOf(p: Placed): int {
    match p case OrderPlaced(o) => o.remaining case StopPlaced(s) => s.remaining
  }

  function TallyOf(c: Command, r: Reply, side: Side): Tally {
    var mine := SideOf(r.placed) == side;
    Tally(if mine && !c.Cancel? then SizeOf(r.placed) else 0,
          Traded(r.trades),
          Dropped(r.fills, side) + (if mine && c.Cancel? then LeftOf(r.placed) else 0))
  }

  lemma PlaceBalances(b: Book, typ: OrderType, input: Input, clock: Clock, side: Side)
    requires WF(b) && typ in {Limit, Market} && Place(b, typ, input, clock).outcome.Ok?
    ensures var s := Place(b, typ, input, clock);
            && Held(s.book, side) == Held(b, side) - Traded(s.outcome.value.trades)
                                     - Dropped(s.outcome.value.fills, side)
                                     + (if input.side == Some(side) then input.quantity else 0)
  {
    hide WF, Taken, Submit, Cycles, Traded, Dropped, Pending, Sum, LiveQueue;
    WFSane(b);
    var o := NewOrder(b.symbol, typ, input).value;
    SubmitKeepsWF(b, o);
    SubmitConserves(b, o, side);
    var r := Submit(b, o);
    var c := Cycles(r.book, r.trades, 1, clock);
    CyclesConserve(r.book, r.trades, 1, clock, side);
    TradedAppend(r.trades, c.trades);
    DroppedAppend([r.order], c.fills, side);
    DroppedSingle(r.order, side);
  }

  lemma PlaceStopBalances(b: Book, typ: OrderType, input: Input, peak: Option<int>, valley: Option<int>, side: Side)
    requires Sane(b) && PlaceStop(b, typ, input, peak, valley).outcome.Ok?
    ensures var s := PlaceStop(b, typ, input, peak, valley);
            && s.outcome.value.placed.StopPlaced?
            && Held(s.book, side) == Held(b, side)
                 + (if SideOf(s.outcome.value.placed) == side then SizeOf(s.outcome.value.placed) else 0)
            && s.outcome.value.trades == [] && s.outcome.value.fills == []
  {
    var stop := PlaceStop(b, typ, input, peak, valley).outcome.value.placed.stop;
    PendingAppend(b.stops, [stop], side);
    assert [stop][1..] == [];
  }

  lemma CancelBalances(b: Book, id: string, side: Side)
    requires WF(b) && CancelById(b, id).outcome.Ok?
    ensures var s := CancelById(b, id);
            && Held(s.book, side) == Held(b, side)
                 - (if SideOf(s.outcome.value.placed) == side then LeftOf(s.outcome.value.placed) else 0)
            && s.outcome.value.trades == [] && s.outcome.value.fills == []
  {
    hide Sum, Pending, Without, WithoutStop, LiveQueue, Sorted, NoDup, StopsOk;
    if HoldsStop(b.stops, id) {
      PendingWithout(b.stops, id, side);
    } else if Holds(b.bids, id) {
      SumWithout(b.bids, id);
    } else if Holds(b.asks, id) {
      SumWithout(b.asks, id);
    }
  }

  lemma PlacedSize(b: Book, typ: OrderType, input: Input, clock: Clock)
    requires WF(b) && typ in {Limit, Market} && Place(b, typ, input, clock).outcome.Ok?
    ensures var p := Place(b, typ, input, clock).outcome.value.placed;
            input.side == Some(SideOf(p)) && SizeOf(p) == input.quantity
  {
    hide WF, Dealt, NoSelfTrade, Taken, Submit, BookSpec.ProcessStops, LiveQueue;
    PlaceAccounts(b, typ, input, clock);
  }

  /** One successful command balances on each side. */
  lemma ExecBalances(b: Book, c: Command, clock: Clock, side: Side)
    requires WF(b) && Exec(b, c, clock).outcome.Ok?
    ensures var s := Exec(b, c, clock);
            var t := TallyOf(c, s.outcome.value, side);
            Held(b, side) + t.accepted == Held(s.book, side) + t.traded + t.cancelled
  {
    hide WF, Place, PlaceStop, CancelById, Held, Traded, Dropped, Dealt, NoSelfTrade;
    WFSane(b);
    EmptySums(side);
    match c
    case PlaceLimit(input) =>
      PlaceBalances(b, Limit, input, clock, side);
      PlacedSize(b, Limit, input, clock);
    case PlaceMarket(input) =>
      PlaceBalances(b, Market, input, clock, side);
      PlacedSize(b, Market, input, clock);
    case PlaceStopMarket(input) => PlaceStopBalances(b, StopMarket, input, None, None, side);
    case PlaceStopLimit(input) => PlaceStopBalances(b, StopLimit, input, None, None, side);
    case PlaceTrailingStopMarket(input) =>
      var last, amount := b.last.value, input.trailingAmount.value;
      if input.side.value == Sell {
        PlaceStopBalances(b, TrailingStopMarket, input.(trigger := Some(last - amount)), Some(last), None, side);
      } else {
        PlaceStopBalances(b, TrailingStopMarket, input.(trigger := Some(last + amount)), None, Some(last), side);
      }
    case Cancel(id) => CancelBalances(b, id, side);
  }

  // --------------------------------------------------------------------- runs

  /** The ledger of a run, from the replies alone. */
  function RunTally(b: Book, rs: seq<Request>, side: Side): Tally
    requires Sane(b)
    decreases |rs|
  {
    if rs == [] then Tally(0, 0, 0)
    else
      var s := Next(b, rs[0]);
      var rest := RunTally(s.book, rs[1..], side);
      if s.outcome.Ok? then Plus(TallyOf(rs[0].command, s.outcome.value, side), rest) else rest
  }

  /** Over a whole run, on each side: what was accepted is what is still held
      plus what was traded plus what was cancelled. */
  lemma {:induction false} RunBalances(b: Book, rs: seq<Request>, side: Side)
    requires Good(b) && Admissible(b, rs)
    ensures var t := RunTally(b, rs, side);
            Held(b, side) + t.accepted == Held(Run(b, rs), side) + t.traded + t.cancelled
    decreases |rs|
  {
    hide WF, Clean, Exec, Sane, Held, TallyOf;
    GoodSane(b);
    if rs != [] {
      NextKeepsGood(b, rs[0]);
      if Next(b, rs[0]).outcome.Ok? {
        ExecBalances(b, rs[0].command, rs[0].clock, side);
      }
      RunBalances(Next(b, rs[0]).book, rs[1..], side);
    }
  }

  /** The quantity traded is the same on both sides: from an empty book, what
      buyers got and what sellers got rid of agree in every run. */
  lemma BothSidesTradeTheSame(symbol: string, rs: seq<Request>)
    requires !Blank(symbol) && Admissible(EmptyBook(symbol), rs)
    ensures var b := EmptyBook(symbol);
            var buy, sell := RunTally(b, rs, Buy), RunTally(b, rs, Sell);
            buy.accepted - buy.cancelled - Held(Run(b, rs), Buy)
            == sell.accepted - sell.cancelled - Held(Run(b, rs), Sell)
  {
    EmptyBookGood(symbol);
    RunBalances(EmptyBook(symbol), rs, Buy);
    RunBalances(EmptyBook(symbol), rs, Sell);
    SameTraded(EmptyBook(symbol), rs);
  }

  lemma {:induction false} SameTraded(b: Book, rs: seq<Request>)
    requires Sane(b)
    ensures RunTally(b, rs, Buy).traded == RunTally(b, rs, Sell).traded
    decreases |rs|
  {
    hide Sane, Exec;
    if rs != [] {
      SameTraded(Next(b, rs[0]).book, rs[1..]);
    }
  }
}
