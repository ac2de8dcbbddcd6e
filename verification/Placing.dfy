/** What a command that succeeds answers and leaves: the order it was about, as
    its input says and as the book has it afterwards, and the trade history. */
module Placing {
  import opened Types
  import opened Matching
  import opened BookSpec
  import opened Invariant
  import opened StopCascade
  import opened Runs
  import opened Accounting
  import opened Trailing
  import opened StopLife
  import opened Refusals

  /** The order that a placing command is about. */
  predicate IsFor(o: Order, b: Book, typ: OrderType, input: Input) {
    && o.id == input.orderId && o.user == input.userId && o.symbol == b.symbol && Some(o.side) == input.side
    && o.typ == typ && o.price == input.price && o.initial == input.quantity && o.timestamp == input.timestamp
  }

  /** The order in the reply is the one of the input, with what is left of it at the end of the command; the first fill
      snapshot is the same order before its cascade.  A limit order rests exactly if something is left of it, as it is
      in the reply; a market order never does. */
  lemma PlacedOrder(b: Book, typ: OrderType, input: Input, clock: Clock)
    requires WF(b) && typ in {Limit, Market} && Place(b, typ, input, clock).outcome.Ok?
    ensures var s := Place(b, typ, input, clock);
            var r := s.outcome.value;
            && r.placed.OrderPlaced? && r.fills != []
            && var o := r.placed.order;
               && IsFor(o, b, typ, input) && StatusTells(o)
               && IsFor(r.fills[0], b, typ, input) && StatusTells(r.fills[0])
               && Resting(s.book, o.id) == if typ == Limit && o.remaining > 0 then Some(o) else None
  {
    hide WF, Taken, Submit, Cycles, LiveQueue, StopIds, NoSelfTrade, Find, Dealt;
    WFSane(b);
    NewOrderChecks(b.symbol, typ, input);
    var o := NewOrder(b.symbol, typ, input).value;
    TakenMeans(b, o.id);
    SubmitKeepsWF(b, o);
    SubmitFrame(b, o);
    SubmittedTells(b, o);
    SubmitAccountsOwn(b, o);
    var r := Submit(b, o);
    CyclesKeepWF(r.book, r.trades, 1, clock);
    CyclesAccount(r.book, r.trades, 1, clock, o.id);
    var c := Cycles(r.book, r.trades, 1, clock);
    FinalIsResting(r.book, c.book, r.order);
    OwnRests(r.book, r.order);
    FinalRests(r.book, c.book, r.order);
  }

  lemma FinalRests(b: Book, b': Book, o: Order)
    requires WF(b) && WF(b') && StatusTells(o) && (o.typ == Limit || o.typ == Market)
    requires o.id != "" && o.user != ""
    requires Resting(b, o.id) == (if Live(o) then Some(o) else None)
    requires Find(Opposite(b, o.side), o.id).None? && Continues(Resting(b, o.id), Resting(b', o.id))
    requires o.typ == Limit && o.remaining > 0 ==> Live(o)
    ensures var x := FinalOrder(b', o);
            && StatusTells(x)
            && Resting(b', o.id) == if o.typ == Limit && x.remaining > 0 then Some(x) else None
  {
    hide Sorted, NoDup, StopsOk, StopIds, Find, Ids;
    FindIsHolds(Own(b', o.side), o.id);
    FindIsHolds(Opposite(b', o.side), o.id);
    RestingApart(b', o.id);
    if Resting(b', o.id).Some? {
      FoundSide(b', o);
    }
  }

  // ------------------------------------------------------------ other commands

  /** The order under an id, whether it rests or waits: cancelling returns it as cancelled, and then nothing of the id is
      left in the book, and nothing else has changed. */
  lemma CancelReturns(b: Book, id: string, other: string)
    requires WF(b) && id in IdsInUse(b) && other != id
    ensures var s := CancelById(b, id);
            && s.outcome.Ok? && id !in IdsInUse(s.book)
            && (Resting(b, id).Some? ==> s.outcome.value.placed == OrderPlaced(Resting(b, id).value.(status := Cancelled)))
            && (HoldsStop(b.stops, id) ==>
                  s.outcome.value.placed == StopPlaced(b.stops[StopIndex(b.stops, id)].(status := Cancelled)))
            && Resting(s.book, other) == Resting(b, other)
            && (other in IdsInUse(s.book) <==> other in IdsInUse(b))
            && s.outcome.value.trades == [] && s.book.trades == b.trades && s.book.last == b.last
  {
    hide LiveQueue, Sorted, NoDup, IndexOf, Find, StopIndex;
    StopHoldsIffIn(b.stops, id);
    FindIsHolds(b.bids, id);
    FindIsHolds(b.asks, id);
    if HoldsStop(b.stops, id) {
      WithoutStopParts(b.stops, id, b.symbol, b.last.Some?);
    } else if Holds(b.bids, id) {
      WithoutKeepsSide(b.bids, id, Buy, b.symbol);
      FindWithout(b.bids, id, other);
    } else {
      WithoutKeepsSide(b.asks, id, Sell, b.symbol);
      FindWithout(b.asks, id, other);
    }
  }

  lemma FindWithout(q: seq<Order>, id: string, other: string)
    requires other != id && Holds(q, id)
    ensures Find(Without(q, id), other) == Find(q, other)
  {
    hide IndexOf;
    var k := IndexOf(q, id);
    FindAppend(q[..k], q[k + 1..], other);
    FindAppend(q[..k], q[k..], other);
    assert q[..k] + q[k..] == q;
    assert q[k..][1..] == q[k + 1..];
  }

  /** The history of a book is what it was, followed by the trades in the reply. */
  lemma HistoryGrows(b: Book, r: Request)
    requires WF(b)
    ensures Sane(b)
    ensures Next(b, r).outcome.Ok? ==> Next(b, r).book.trades == b.trades + TradesOf(Next(b, r))
  {
    hide WF, Place, Taken, LiveQueue, IndexOf, StopIndex;
    WFSane(b);
    assert b.trades + [] == b.trades;
    if Next(b, r).outcome.Ok? {
      match r.command
      case PlaceLimit(input) => PlaceHistory(b, Limit, input, r.clock);
      case PlaceMarket(input) => PlaceHistory(b, Market, input, r.clock);
      case _ =>
    }
  }

  lemma SubmitHistory(b: Book, o: Order)
    requires Sane(b) && Incoming(o)
    ensures Submit(b, o).book.trades == b.trades + Submit(b, o).trades
  {
    hide Match, Insert, LiveQueue;
  }

  lemma PlaceHistory(b: Book, typ: OrderType, input: Input, clock: Clock)
    requires WF(b) && typ in {Limit, Market} && Place(b, typ, input, clock).outcome.Ok?
    ensures var s := Place(b, typ, input, clock); s.book.trades == b.trades + s.outcome.value.trades
  {
    hide WF, Taken, Submit, Cycles, LiveQueue;
    WFSane(b);
    var o := NewOrder(b.symbol, typ, input).value;
    SubmitKeepsWF(b, o);
    SubmitHistory(b, o);
    var r := Submit(b, o);
    CascadeHistory(r.book, r.trades, 1, clock);
    var c := Cycles(r.book, r.trades, 1, clock);
    assert (b.trades + r.trades) + c.trades == b.trades + (r.trades + c.trades);
  }

  lemma RunStopHistory(b: Book, s: Stop, now: nat)
    requires Sane(b)
    ensures var c := RunStop(b, s, now); c.book.trades == b.trades + c.trades
  {
    hide LiveQueue, Submit, WithoutStop;
    var b' := b.(stops := WithoutStop(b.stops, s.id));
    match NewOrder(b.symbol, TriggeredType(s), StopInput(s, now))
    case Err(_) => assert b.trades + [] == b.trades;
    case Ok(o) => SubmitHistory(b', o);
  }

  lemma {:induction false} RunStopsHistory(b: Book, el: seq<Stop>, clock: Clock)
    requires WF(b) && Waiting(b, el) && RunStops(b, el, clock).error.None?
    ensures var c := RunStops(b, el, clock); c.book.trades == b.trades + c.trades
    decreases |el|
  {
    hide WF, Waiting, RunStop, RunStops, Sane;
    WFSane(b);
    if el == [] {
      NoStops(b, clock);
      assert b.trades + [] == b.trades;
    } else {
      RunStopsParts(b, el, clock);
      var c := RunStop(b, el[0], clock(el[0].id));
      RunStopHistory(b, el[0], clock(el[0].id));
      RunStopsHistory(c.book, el[1..], clock);
      var d := RunStops(c.book, el[1..], clock);
      assert (b.trades + c.trades) + d.trades == b.trades + (c.trades + d.trades);
    }
  }

  lemma {:induction false} CascadeHistory(b: Book, latest: seq<Trade>, cycle: nat, clock: Clock)
    requires WF(b) && Cycles(b, latest, cycle, clock).error.None?
    ensures var c := Cycles(b, latest, cycle, clock); c.book.trades == b.trades + c.trades
    decreases if cycle > MAX_CYCLES then 0 else MAX_CYCLES + 1 - cycle
  {
    hide WF, Waiting, Cycle, Cycles, Sane, RunStops, EligibleStops;
    WFSane(b);
    if latest == [] {
      NoCycles(b, cycle, clock);
      assert b.trades + [] == b.trades;
    } else {
      var price := LastPrice(latest);
      CyclesParts(b, latest, cycle, clock);
      MarkKeepsWF(b, price);
      CycleParts(b, price, clock);
      EligibleWaiting(Mark(b, price), price);
      RunStopsHistory(Mark(b, price), EligibleStops(Mark(b, price).stops, price), clock);
      var c := Cycle(b, price, clock);
      CascadeHistory(c.book, c.trades, cycle + 1, clock);
      var d := Cycles(c.book, c.trades, cycle + 1, clock);
      assert (b.trades + c.trades) + d.trades == b.trades + (c.trades + d.trades);
    }
  }
}
