/** Sequence numbers: how many events a command carries, counted over what its
    reply reports, and that the book's sequence advances by exactly that. */
module Numbering {
  import opened Types
  import opened Matching
  import opened BookSpec
  import opened Invariant
  import opened StopCascade

  /** How many of these triggered orders are announced as resting: those that nothing has filled yet. */
  function Announced(fills: seq<Order>): nat {
    if fills == [] then 0
    else (if fills[0].status == Open && fills[0].remaining > 0 then 1 else 0) + Announced(fills[1..])
  }

  lemma {:induction false} AnnouncedAppend(a: seq<Order>, b: seq<Order>)
    ensures Announced(a + b) == Announced(a) + Announced(b)
  {
    if a == [] {
      assert a + b == b;
    } else {
      assert (a + b)[0] == a[0] && (a + b)[1..] == a[1..] + b;
      AnnouncedAppend(a[1..], b);
    }
  }

  /** One event for every trade, every order filled, every stop triggered and every order that rests. */
  predicate Counted(c: Cascade) {
    && |c.fills| == |c.triggered|
    && c.events == |c.trades| + |c.fills| + |c.triggered| + Announced(c.fills)
  }

  lemma CountedThen(c: Cascade, d: Cascade, e: Cascade)
    requires Counted(c) && Counted(d)
    requires e.trades == c.trades + d.trades && e.fills == c.fills + d.fills
    requires e.triggered == c.triggered + d.triggered && e.events == c.events + d.events
    ensures Counted(e)
  {
    AnnouncedAppend(c.fills, d.fills);
  }

  lemma RunStopCounts(b: Book, s: Stop, now: nat)
    requires Sane(b) && RunStop(b, s, now).error.None?
    ensures Counted(RunStop(b, s, now))
  {
    hide LiveQueue, Submit, WithoutStop;
    var c := RunStop(b, s, now);
    assert Announced(c.fills[1..]) == 0;
  }

  lemma {:induction false} RunStopsCount(b: Book, el: seq<Stop>, clock: Clock)
    requires WF(b) && Waiting(b, el) && RunStops(b, el, clock).error.None?
    ensures Counted(RunStops(b, el, clock))
    decreases |el|
  {
    hide WF, Waiting, RunStop, Sane, Counted;
    WFSane(b);
    if el == [] {
      NothingCounts(b);
    } else {
      RunStopsParts(b, el, clock);
      var c := RunStop(b, el[0], clock(el[0].id));
      RunStopCounts(b, el[0], clock(el[0].id));
      RunStopsCount(c.book, el[1..], clock);
      CountedThen(c, RunStops(c.book, el[1..], clock), RunStops(b, el, clock));
    }
  }

  lemma NothingCounts(b: Book)
    ensures Counted(Nothing(b))
  {
  }

  lemma CycleCounts(b: Book, price: int, clock: Clock)
    requires WF(b) && Cycle(b, price, clock).error.None?
    ensures Counted(Cycle(b, price, clock))
  {
    hide WF, Waiting, RunStops, Sane, EligibleStops, Mark, Counted;
    WFSane(b);
    MarkKeepsWF(b, price);
    var b1 := Mark(b, price);
    WFSane(b1);
    EligibleWaiting(b1, price);
    var d := RunStops(b1, EligibleStops(b1.stops, price), clock);
    RunStopsCount(b1, EligibleStops(b1.stops, price), clock);
    NothingCounts(b1);
    CountedThen(Nothing(b1), d, Cycle(b, price, clock));
  }

  lemma {:induction false} CascadeCounts(b: Book, latest: seq<Trade>, cycle: nat, clock: Clock)
    requires WF(b) && Cycles(b, latest, cycle, clock).error.None?
    ensures Counted(Cycles(b, latest, cycle, clock))
    decreases if cycle > MAX_CYCLES then 0 else MAX_CYCLES + 1 - cycle
  {
    hide WF, Cycle, Cycles, Sane, Counted;
    WFSane(b);
    if latest == [] {
      NoCycles(b, cycle, clock);
      NothingCounts(b);
    } else {
      CyclesParts(b, latest, cycle, clock);
      var c := Cycle(b, LastPrice(latest), clock);
      var d := Cycles(c.book, c.trades, cycle + 1, clock);
      CycleCounts(b, LastPrice(latest), clock);
      CascadeCounts(c.book, c.trades, cycle + 1, clock);
      CountedThen(c, d, Cycles(b, latest, cycle, clock));
    }
  }

  /** An accepted order carries one event for being accepted and one for the book, one for every trade, filled order and
      triggered stop, one if what is left of a limit order rests, and one for every triggered order that rests untouched. */
  lemma PlaceNumbers(b: Book, typ: OrderType, input: Input, clock: Clock)
    requires WF(b) && typ in {Limit, Market} && Place(b, typ, input, clock).outcome.Ok?
    ensures var s := Place(b, typ, input, clock);
            var r := s.outcome.value;
            && |r.fills| == 1 + |r.triggered|
            && r.events == 2 + |r.trades| + |r.fills| + |r.triggered| + Announced(r.fills[1..])
                           + (if typ == Limit && r.fills[0].remaining > 0 then 1 else 0)
            && s.book.sequence == b.sequence + r.events
  {
    hide WF, Taken, Submit, Cycles, LiveQueue;
    WFSane(b);
    var o := NewOrder(b.symbol, typ, input).value;
    SubmitKeepsWF(b, o);
    SubmitFrame(b, o);
    SubmittedLive(b, o);
    var r := Submit(b, o);
    CyclesKeepWF(r.book, r.trades, 1, clock);
    CascadeCounts(r.book, r.trades, 1, clock);
    var c := Cycles(r.book, r.trades, 1, clock);
    assert ([r.order] + c.fills)[1..] == c.fills;
  }

  lemma SubmittedLive(b: Book, o: Order)
    requires Sane(b) && Incoming(o)
    ensures var r := Submit(b, o); r.order.typ == o.typ && (o.typ == Limit ==> (Live(r.order) <==> r.order.remaining > 0))
  {
    hide Match, Insert, LiveQueue;
  }

  /** Every command that succeeds advances the sequence by the number of its events, but for cancelling a stop, whose
      events are not numbered. */
  lemma ExecNumbers(b: Book, c: Command, clock: Clock)
    requires WF(b) && Exec(b, c, clock).outcome.Ok?
    ensures var s := Exec(b, c, clock);
            && (s.book.sequence
                == if c.Cancel? && HoldsStop(b.stops, c.id) then b.sequence else b.sequence + s.outcome.value.events)
            && (!c.PlaceLimit? && !c.PlaceMarket? ==> s.outcome.value.events == 2)
  {
    hide WF, Place, Taken, LiveQueue;
    match c
    case PlaceLimit(input) => PlaceNumbers(b, Limit, input, clock);
    case PlaceMarket(input) => PlaceNumbers(b, Market, input, clock);
    case _ =>
  }
}
