/** Exactly when rejections are atomic.

    A command that is rejected inside the stop cascade returns its error after
    the book has changed.  This module says which rejections those are, and
    which books can ever suffer one: precisely those that hold a market-type
    stop with a limit price, other than a plain sell stop whose trigger no
    positive price can reach. */
module Atomicity {
  import opened Types
  import opened Matching
  import opened BookSpec
  import opened Invariant
  import opened StopCascade
  import opened Runs

  // ------------------------------------------------- rejections that change the book

  /** The cascade only ever adds to the trade history. */
  lemma {:induction false} RunStopsRecord(b: Book, el: seq<Stop>, clock: Clock)
    requires Sane(b)
    ensures RunStops(b, el, clock).book.trades == b.trades + RunStops(b, el, clock).trades
    decreases |el|
  {
    hide Sane, RunStop;
    if el != [] {
      var c := RunStop(b, el[0], clock(el[0].id));
      RunStopRecords(b, el[0], clock(el[0].id));
      if c.error.None? {
        RunStopsRecord(c.book, el[1..], clock);
        assert (b.trades + c.trades) + RunStops(c.book, el[1..], clock).trades
            == b.trades + (c.trades + RunStops(c.book, el[1..], clock).trades);
      }
    }
  }

  lemma RunStopRecords(b: Book, s: Stop, now: nat)
    requires Sane(b)
    ensures RunStop(b, s, now).book.trades == b.trades + RunStop(b, s, now).trades
  {
    hide LiveQueue, Match, Insert, WithoutStop, NewOrder;
    assert b.trades + [] == b.trades;
  }

  lemma {:induction false} CyclesRecord(b: Book, latest: seq<Trade>, cycle: nat, clock: Clock)
    requires Sane(b)
    ensures Cycles(b, latest, cycle, clock).book.trades == b.trades + Cycles(b, latest, cycle, clock).trades
    decreases if cycle > MAX_CYCLES then 0 else MAX_CYCLES + 1 - cycle
  {
    hide LiveQueue, RunStops, EligibleStops, TrailAll;
    if latest != [] && cycle <= MAX_CYCLES {
      var price := LastPrice(latest);
      var c := Cycle(b, price, clock);
      CycleParts(b, price, clock);
      RunStopsRecord(Mark(b, price), EligibleStops(Mark(b, price).stops, price), clock);
      if c.error.None? {
        CyclesRecord(c.book, c.trades, cycle + 1, clock);
        assert (b.trades + c.trades) + Cycles(c.book, c.trades, cycle + 1, clock).trades
            == b.trades + (c.trades + Cycles(c.book, c.trades, cycle + 1, clock).trades);
      }
    }
  }

  lemma SubmitRecords(b: Book, o: Order)
    requires Sane(b) && Incoming(o)
    ensures Submit(b, o).book.trades == b.trades + Submit(b, o).trades
  {
    hide LiveQueue, Match, Insert;
  }

  /** Which commands pass validation and reach the matching loop. */
  predicate Reaches(b: Book, typ: OrderType, input: Input) {
    !Taken(b, input.orderId) && NewOrder(b.symbol, typ, input).Ok?
  }

  lemma PlaceErrorIff(b: Book, typ: OrderType, input: Input, clock: Clock)
    requires Sane(b) && typ in {Limit, Market} && Place(b, typ, input, clock).outcome.Err?
    ensures Place(b, typ, input, clock).book == b <==> !Reaches(b, typ, input)
  {
    hide Taken, LiveQueue, Submit, Cycles;
    if Reaches(b, typ, input) {
      var o := NewOrder(b.symbol, typ, input).value;
      var r := Submit(b, o);
      SubmitRecords(b, o);
      CyclesRecord(r.book, r.trades, 1, clock);
      if r.trades == [] {
        NoCycles(r.book, 1, clock);
      }
      assert |Place(b, typ, input, clock).book.trades| > |b.trades|;
    }
  }

  /** A rejected command leaves the book as it was exactly if it is not an order that passed validation. */
  lemma RejectionIsAtomicIff(b: Book, c: Command, clock: Clock)
    requires Sane(b) && Exec(b, c, clock).outcome.Err?
    ensures Exec(b, c, clock).book == b
            <==> match c
                 case PlaceLimit(input) => !Reaches(b, Limit, input)
                 case PlaceMarket(input) => !Reaches(b, Market, input)
                 case _ => true
  {
    hide Place, Reaches, LiveQueue, Taken;
    match c
    case PlaceLimit(input) => PlaceErrorIff(b, Limit, input, clock);
    case PlaceMarket(input) => PlaceErrorIff(b, Market, input, clock);
    case _ =>
  }

  // --------------------------------------------------------------- safe books

  /** A plain sell stop that no positive price can trigger. */
  predicate Harmless(s: Stop) {
    s.typ == StopMarket && s.side == Sell && s.trigger <= 0
  }

  predicate Safe(b: Book) {
    forall s :: s in b.stops && Poisoned(s) ==> Harmless(s)
  }

  predicate Positive(ts: seq<Trade>) {
    forall i :: 0 <= i < |ts| ==> ts[i].price > 0
  }

  lemma PositiveAppend(a: seq<Trade>, b: seq<Trade>)
    requires Positive(a) && Positive(b)
    ensures Positive(a + b)
  {
  }

  lemma MatchPositive(inc: Order, q: seq<Order>, ignorePrice: bool)
    requires Incoming(inc) && LiveQueue(q)
    requires !ignorePrice ==> inc.price.Some?
    ensures Positive(Match(inc, q, ignorePrice).trades)
  {
    hide Match, Depth;
    forall i | 0 <= i < |Match(inc, q, ignorePrice).trades|
      ensures Match(inc, q, ignorePrice).trades[i].price > 0
    {
      MatchTrades(inc, q, ignorePrice, i);
      assert Live(q[i]);
    }
  }

  lemma SubmitPositive(b: Book, o: Order)
    requires Sane(b) && Incoming(o)
    ensures Positive(Submit(b, o).trades)
  {
    hide LiveQueue, Match, Insert, Positive;
    MatchPositive(o, Opposite(b, o.side), o.typ != Limit);
  }

  lemma RunStopPositive(b: Book, s: Stop, now: nat)
    requires Sane(b)
    ensures Positive(RunStop(b, s, now).trades)
  {
    hide LiveQueue, Submit, WithoutStop;
    match NewOrder(b.symbol, TriggeredType(s), StopInput(s, now))
    case Err(_) =>
    case Ok(o) => SubmitPositive(b.(stops := WithoutStop(b.stops, s.id)), o);
  }

  lemma {:induction false} RunStopsPositive(b: Book, el: seq<Stop>, clock: Clock)
    requires Sane(b)
    ensures Positive(RunStops(b, el, clock).trades)
    decreases |el|
  {
    hide Sane, RunStop, Positive;
    if el == [] {
      NothingPositive();
    } else {
      var c := RunStop(b, el[0], clock(el[0].id));
      RunStopPositive(b, el[0], clock(el[0].id));
      if c.error.None? {
        RunStopsPositive(c.book, el[1..], clock);
        PositiveAppend(c.trades, RunStops(c.book, el[1..], clock).trades);
      }
    }
  }

  lemma NothingPositive()
    ensures Positive([])
  {
  }

  lemma SafeAfterMark(b: Book, price: int)
    requires Safe(b)
    ensures Safe(Mark(b, price))
  {
    hide TrailAll;
    forall s | s in Mark(b, price).stops && Poisoned(s)
      ensures Harmless(s)
    {
      var i :| 0 <= i < |b.stops| && s == Trail(b.stops[i], price);
      assert b.stops[i] in b.stops;
    }
  }

  /** At a positive price no stop of a safe book is eligible that would fail. */
  lemma SafeEligible(b: Book, price: int)
    requires Safe(b) && price > 0
    ensures !AnyPoisoned(EligibleStops(b.stops, price))
  {
    hide EligibleStops;
    var el := EligibleStops(b.stops, price);
    forall i | 0 <= i < |el|
      ensures !Poisoned(el[i])
    {
      assert el[i] in b.stops && Eligible(el[i], price);
    }
  }

  lemma CycleOfSafeBook(b: Book, price: int, clock: Clock)
    requires WF(b) && Safe(b) && price > 0
    ensures var c := Cycle(b, price, clock);
            && c.error.None? && Safe(c.book) && Positive(c.trades)
            && (c.trades == [] || |c.book.stops| < |b.stops|)
  {
    hide WF, Waiting, Safe, EligibleStops, RunStops, Positive, AnyPoisoned;
    WFSane(b);
    MarkKeepsWF(b, price);
    CycleKeepsWF(b, price, clock);
    SafeAfterMark(b, price);
    var b1 := Mark(b, price);
    WFSane(b1);
    var el := EligibleStops(b1.stops, price);
    EligibleWaiting(b1, price);
    SafeEligible(b1, price);
    RunStopsFailsIff(b1, el, clock);
    RunStopsLeaves(b1, el, clock);
    RunStopsPositive(b1, el, clock);
    CycleParts(b, price, clock);
    NoStopsNoTrades(b1, el, clock);
    FewerStaySafe(b1, Cycle(b, price, clock).book);
  }

  lemma NoStopsNoTrades(b: Book, el: seq<Stop>, clock: Clock)
    requires Sane(b)
    ensures el == [] ==> RunStops(b, el, clock).trades == []
  {
  }

  lemma FewerStaySafe(b: Book, b': Book)
    requires Safe(b) && forall s :: s in b'.stops ==> s in b.stops
    ensures Safe(b')
  {
  }

  lemma {:induction false} SafeCascade(b: Book, latest: seq<Trade>, cycle: nat, clock: Clock)
    requires WF(b) && Safe(b) && Positive(latest) && cycle + |b.stops| <= MAX_CYCLES
    ensures var c := Cycles(b, latest, cycle, clock); c.error.None? && Safe(c.book)
    decreases if cycle > MAX_CYCLES then 0 else MAX_CYCLES + 1 - cycle
  {
    hide WF, Safe, Cycle;
    WFSane(b);
    if latest != [] {
      CycleOfSafeBook(b, LastPrice(latest), clock);
      CycleKeepsWF(b, LastPrice(latest), clock);
      var c := Cycle(b, LastPrice(latest), clock);
      if c.trades != [] {
        SafeCascade(c.book, c.trades, cycle + 1, clock);
      }
    }
  }

  lemma SafePlace(b: Book, typ: OrderType, input: Input, clock: Clock)
    requires WF(b) && Safe(b) && |b.stops| < MAX_CYCLES && typ in {Limit, Market}
    ensures var s := Place(b, typ, input, clock); Safe(s.book) && (s.outcome.Err? ==> s.book == b)
  {
    hide WF, Taken, Submit, Cycles, LiveQueue;
    WFSane(b);
    if Reaches(b, typ, input) {
      var o := NewOrder(b.symbol, typ, input).value;
      SubmitKeepsWF(b, o);
      SubmitFrame(b, o);
      SubmitPositive(b, o);
      SafeCascade(Submit(b, o).book, Submit(b, o).trades, 1, clock);
    }
  }

  /** On a safe book with fewer than 1000 pending stops every rejection is atomic, and the book stays safe. */
  lemma SafeNext(b: Book, r: Request)
    requires WF(b) && Safe(b) && Roomy(b, r.command) && CleanCommand(r.command)
    ensures Safe(Next(b, r).book) && (Next(b, r).outcome.Err? ==> Next(b, r).book == b)
  {
    hide WF, Place, Taken;
    match r.command
    case PlaceLimit(input) => SafePlace(b, Limit, input, r.clock);
    case PlaceMarket(input) => SafePlace(b, Market, input, r.clock);
    case Cancel(id) => CancelStaysSafe(b, id);
    case _ =>
  }

  lemma CancelStaysSafe(b: Book, id: string)
    requires WF(b) && Safe(b)
    ensures Safe(CancelById(b, id).book)
  {
    WithoutStopParts(b.stops, id, b.symbol, b.last.Some?);
  }

  // ----------------------------------------------------------- books that can fail

  /** An order whose last trade triggers a poisoned stop is rejected. */
  lemma TriggerRejects(b: Book, typ: OrderType, input: Input, clock: Clock, s: Stop)
    requires WF(b) && typ in {Limit, Market} && Reaches(b, typ, input) && s in b.stops && Poisoned(s)
    requires Incoming(NewOrder(b.symbol, typ, input).value)
    requires var ts := Submit(b, NewOrder(b.symbol, typ, input).value).trades;
             ts != [] && Eligible(Trail(s, LastPrice(ts)), LastPrice(ts))
    ensures Place(b, typ, input, clock).outcome.Err?
  {
    hide WF, Taken, Submit, Cycle, LiveQueue, Eligible, Trail, Poisoned;
    WFSane(b);
    var o := NewOrder(b.symbol, typ, input).value;
    SubmitKeepsWF(b, o);
    SubmitFrame(b, o);
    var r := Submit(b, o);
    CycleRejects(r.book, LastPrice(r.trades), clock, s);
  }

  lemma CycleRejects(b: Book, price: int, clock: Clock, s: Stop)
    requires WF(b) && s in b.stops && Poisoned(s) && Eligible(Trail(s, price), price)
    ensures Cycle(b, price, clock).error.Some?
  {
    hide WF, Waiting, RunStops, EligibleStops, Eligible;
    WFSane(b);
    MarkKeepsWF(b, price);
    var b1 := Mark(b, price);
    WFSane(b1);
    var el := EligibleStops(b1.stops, price);
    EligibleWaiting(b1, price);
    TrailedIn(b.stops, price, s);
    EligibleExactly(b1.stops, price, Trail(s, price));
    var i :| 0 <= i < |el| && el[i] == Trail(s, price);
    assert Poisoned(el[i]);
    RunStopsFailsIff(b1, el, clock);
    CycleParts(b, price, clock);
  }

  lemma TrailedIn(stops: seq<Stop>, price: int, s: Stop)
    requires s in stops
    ensures Trail(s, price) in TrailAll(stops, price)
  {
    hide Trail;
    var i :| 0 <= i < |stops| && stops[i] == s;
    assert TrailAll(stops, price)[i] == Trail(s, price);
  }

  // ---- an id that is free

  function Longest(ids: seq<string>): nat
    ensures forall i :: 0 <= i < |ids| ==> |ids[i]| <= Longest(ids)
  {
    if ids == [] then 0 else Max(|ids[0]|, Longest(ids[1..]))
  }

  function AllIds(b: Book): seq<string> {
    seq(|b.bids|, i requires 0 <= i < |b.bids| => b.bids[i].id)
    + seq(|b.asks|, i requires 0 <= i < |b.asks| => b.asks[i].id)
    + seq(|b.stops|, i requires 0 <= i < |b.stops| => b.stops[i].id)
  }

  function Letters(n: nat): (s: string)
    ensures |s| == n
  {
    if n == 0 then "" else "x" + Letters(n - 1)
  }

  /** An id longer than every id in the book. */
  function FreeId(b: Book): (id: string)
    ensures id != "" && !Taken(b, id)
  {
    hide IndexOf, StopIndex, Longest, Letters;
    var ids := AllIds(b);
    assert forall i :: 0 <= i < |b.bids| ==> b.bids[i].id == ids[i];
    assert forall i :: 0 <= i < |b.asks| ==> b.asks[i].id == ids[|b.bids| + i];
    assert forall i :: 0 <= i < |b.stops| ==> b.stops[i].id == ids[|b.bids| + |b.asks| + i];
    Letters(1 + Longest(ids))
  }

  // ---- a price worse than every other

  function Highest(q: seq<Order>): int
    ensures forall i :: 0 <= i < |q| ==> Px(q[i]) <= Highest(q)
  {
    if q == [] then 0 else Max(Px(q[0]), Highest(q[1..]))
  }

  function Ask1(id: string, side: Side, price: int): Input {
    Input(id, "u", Some(side), Some(price), None, None, 1, 0)
  }

  function Sweep(id: string, side: Side, quantity: int): Input {
    Input(id, "u", Some(side), None, None, None, quantity, 0)
  }

  /** An order that cannot trade and is no better than anything on its side rests last. */
  lemma RestsLast(b: Book, side: Side, price: int, clock: Clock)
    requires WF(b) && price > 0
    requires var q := Opposite(b, side); q != [] ==> if side == Buy then Px(q[0]) > price else Px(q[0]) < price
    requires var q := Own(b, side); forall i :: 0 <= i < |q| ==> if side == Buy then Px(q[i]) >= price else Px(q[i]) <= price
    ensures var s := Place(b, Limit, Ask1(FreeId(b), side, price), clock);
            && s.outcome.Ok? && s.book.stops == b.stops && s.book.last == b.last
            && Opposite(s.book, side) == Opposite(b, side)
            && Own(s.book, side) != [] && Px(Own(s.book, side)[|Own(s.book, side)| - 1]) == price
  {
    hide FreeId, Cycles, Taken;
    var input := Ask1(FreeId(b), side, price);
    var o := NewOrder(b.symbol, Limit, input).value;
    assert Match(o, Opposite(b, side), false) == Matched(o, Opposite(b, side), []);
    RankLast(Own(b, side), o, side, b.symbol);
    NoCycles(Submit(b, o).book, 1, clock);
  }

  lemma RankLast(q: seq<Order>, o: Order, side: Side, symbol: string)
    requires SideOk(q, side, symbol) && o.side == side
    requires forall i :: 0 <= i < |q| ==> if side == Buy then Px(q[i]) >= Px(o) else Px(q[i]) <= Px(o)
    ensures Insert(q, o) == q + [o]
  {
    hide Slot, Px, Live;
    var k := Slot(q, o);
    assert forall i :: 0 <= i < |q| ==> Rank(q[i]) <= Rank(o);
  }

  /** A market order for all that rests trades with all of it, the last order last. */
  lemma {:induction false} SweepTrades(inc: Order, q: seq<Order>)
    requires Incoming(inc) && LiveQueue(q) && q != [] && inc.remaining == Sum(q)
    ensures var m := Match(inc, q, true); m.trades != [] && LastPrice(m.trades) == Px(q[|q| - 1])
    decreases |q|
  {
    hide TradeOf, Incoming;
    TailIsLive(q);
    SumNonNegative(q[1..]);
    MatchStep(inc, q, true);
    if |q| > 1 {
      SweepTrades(FilledBy(inc, q[0].remaining), q[1..]);
    }
  }

  lemma SweepReaches(b: Book, side: Side)
    requires WF(b) && Opposite(b, side) != []
    ensures var input := Sweep(FreeId(b), side, Sum(Opposite(b, side)));
            && Reaches(b, Market, input)
            && var o := NewOrder(b.symbol, Market, input).value;
               && Incoming(o) && o.symbol == b.symbol && o.side == side && o.typ == Market
               && o.remaining == Sum(Opposite(b, side)) && !Taken(b, o.id)
  {
    hide FreeId, Taken, Sum;
    SumNonNegative(Opposite(b, side));
  }

  /** Sweeping a side ends at its worst price; if that triggers a poisoned stop, the sweep is rejected. */
  lemma SweepRejects(b: Book, side: Side, s: Stop, clock: Clock)
    requires WF(b) && Opposite(b, side) != [] && s in b.stops && Poisoned(s)
    requires var q := Opposite(b, side); var price := Px(q[|q| - 1]); Eligible(Trail(s, price), price)
    ensures Place(b, Market, Sweep(FreeId(b), side, Sum(Opposite(b, side))), clock).outcome.Err?
  {
    hide WF, FreeId, Taken, Sum, Poisoned, Eligible, Trail, NewOrder, Place, Incoming;
    WFSane(b);
    var q := Opposite(b, side);
    SweepReaches(b, side);
    var input := Sweep(FreeId(b), side, Sum(q));
    var o := NewOrder(b.symbol, Market, input).value;
    SweepTrades(o, q);
    SubmitTrades(b, o);
    TriggerRejects(b, Market, input, clock, s);
  }

  lemma SubmitTrades(b: Book, o: Order)
    requires Sane(b) && Incoming(o) && o.typ == Market
    ensures Submit(b, o).trades == Match(o, Opposite(b, o.side), true).trades
  {
    hide Match, LiveQueue;
  }

  // ------------------------------------------------------------- the exact condition

  /** Some run of commands that place no poisoned stop ends in a rejection that has changed the book. */
  ghost predicate Breakable(b: Book)
    requires Sane(b)
  {
    exists rs, r :: Breaks(b, rs, r)
  }

  ghost predicate Breaks(b: Book, rs: seq<Request>, r: Request)
    requires Sane(b)
  {
    && Admissible(b, rs) && CleanCommand(r.command) && Roomy(Run(b, rs), r.command)
    && Next(Run(b, rs), r).outcome.Err? && Next(Run(b, rs), r).book != Run(b, rs)
  }

  lemma BreaksNow(b: Book, r: Request)
    requires Sane(b) && CleanCommand(r.command) && Roomy(b, r.command)
    requires Next(b, r).outcome.Err? && Next(b, r).book != b
    ensures Breakable(b)
  {
    assert Breaks(b, [], r);
  }

  lemma BreaksLater(b: Book, r: Request)
    requires Sane(b) && CleanCommand(r.command) && Roomy(b, r.command)
    requires Breakable(Next(b, r).book)
    ensures Breakable(b)
  {
    hide Next, Sane;
    var b' := Next(b, r).book;
    var rs, q :| Breaks(b', rs, q);
    assert ([r] + rs)[0] == r && ([r] + rs)[1..] == rs;
    assert Breaks(b, [r] + rs, q);
  }

  lemma SweepBreaks(b: Book, side: Side, s: Stop)
    requires WF(b) && |b.stops| < MAX_CYCLES && Opposite(b, side) != [] && s in b.stops && Poisoned(s)
    requires var q := Opposite(b, side); var price := Px(q[|q| - 1]); Eligible(Trail(s, price), price)
    ensures Sane(b) && Breakable(b)
  {
    hide WF, FreeId, Taken, Sum, Poisoned, Eligible, Trail, NewOrder, Place, Incoming, Breakable, Reaches;
    WFSane(b);
    var input := Sweep(FreeId(b), side, Sum(Opposite(b, side)));
    SweepReaches(b, side);
    SweepRejects(b, side, s, Zero());
    PlaceErrorIff(b, Market, input, Zero());
    BreaksNow(b, Request(PlaceMarket(input), Zero()));
  }

  /** Rest an order at a price beyond all others, then sweep up to it. */
  lemma RestAndSweepBreaks(b: Book, side: Side, price: int, s: Stop)
    requires WF(b) && |b.stops| < MAX_CYCLES && s in b.stops && Poisoned(s) && price > 0
    requires var q := Opposite(b, side); q != [] ==> if side == Buy then Px(q[0]) > price else Px(q[0]) < price
    requires var q := Own(b, side); forall i :: 0 <= i < |q| ==> if side == Buy then Px(q[i]) >= price else Px(q[i]) <= price
    requires Eligible(Trail(s, price), price)
    ensures Sane(b) && Breakable(b)
  {
    hide WF, FreeId, Taken, Sum, Poisoned, Eligible, Trail, NewOrder, Place, Incoming, Breakable;
    WFSane(b);
    var r := Request(PlaceLimit(Ask1(FreeId(b), side, price)), Zero());
    RestsLast(b, side, price, Zero());
    ExecKeepsWF(b, r.command, r.clock);
    SweepBreaks(Next(b, r).book, Other(side), s);
    BreaksLater(b, r);
  }

  /** A poisoned buy stop: sell far above everything, and buy it all. */
  lemma BuyStopBreaks(b: Book, s: Stop)
    requires WF(b) && |b.stops| < MAX_CYCLES && s in b.stops && Poisoned(s) && s.side == Buy
    ensures Sane(b) && Breakable(b)
  {
    hide Breakable, Highest, FreeId, LiveQueue;
    ListedStop(b, s);
    var price := 1 + Max(Max(0, s.trigger), Max(Highest(b.bids), Highest(b.asks)));
    RestAndSweepBreaks(b, Sell, price, s);
  }

  lemma FirstOnly(inc: Order, q: seq<Order>)
    requires Incoming(inc) && inc.remaining == 1 && LiveQueue(q) && q != []
    ensures |Match(inc, q, true).trades| == 1 && Match(inc, q, true).trades[0].price == Px(q[0])
  {
    assert Live(q[0]);
    MatchStep(inc, q, true);
  }

  /** A sell order at the lowest price there is: buying one of it triggers any sell stop with a positive trigger. */
  lemma OneBreaks(b: Book, s: Stop)
    requires WF(b) && |b.stops| < MAX_CYCLES && s in b.stops && Poisoned(s)
    requires b.asks != [] && Px(b.asks[0]) <= 1 && Eligible(Trail(s, 1), 1)
    ensures Sane(b) && Breakable(b)
  {
    hide WF, FreeId, Taken, Sum, Poisoned, Eligible, Trail, Place, Breakable, BookSpec.Submit;
    WFSane(b);
    assert Live(b.asks[0]);
    var input := Sweep(FreeId(b), Buy, 1);
    OneReaches(b);
    var o := NewOrder(b.symbol, Market, input).value;
    FirstOnly(o, b.asks);
    SubmitTrades(b, o);
    TriggerRejects(b, Market, input, Zero(), s);
    PlaceErrorIff(b, Market, input, Zero());
    BreaksNow(b, Request(PlaceMarket(input), Zero()));
  }

  lemma OneReaches(b: Book)
    requires WF(b)
    ensures var input := Sweep(FreeId(b), Buy, 1);
            && Reaches(b, Market, input)
            && var o := NewOrder(b.symbol, Market, input).value;
               Incoming(o) && o.remaining == 1 && o.side == Buy && o.typ == Market
  {
    hide FreeId, Taken;
  }

  /** A poisoned sell stop with a positive trigger: buy at the lowest price there is, and sell into it. */
  lemma SellStopBreaks(b: Book, s: Stop)
    requires WF(b) && |b.stops| < MAX_CYCLES && s in b.stops && Poisoned(s) && s.side == Sell && s.trigger >= 1
    ensures Sane(b) && Breakable(b)
  {
    hide Breakable, FreeId;
    ListedStop(b, s);
    if b.asks != [] && Px(b.asks[0]) <= 1 {
      OneBreaks(b, s);
    } else {
      forall i | 0 <= i < |b.bids|
        ensures Px(b.bids[i]) >= 1
      {
        assert Live(b.bids[i]);
      }
      RestAndSweepBreaks(b, Buy, 1, s);
    }
  }

  // ---- a trailing sell stop can be raised first

  /** The same trailing sell stop, with a trigger at least this high. */
  predicate Raised(s: Stop, s': Stop, trigger: int) {
    && Poisoned(s') && s'.typ == TrailingStopMarket && s'.side == Sell
    && s'.trailingAmount == s.trailingAmount && s'.trigger >= trigger
  }

  lemma RaisedByMark(b: Book, s: Stop, price: int)
    requires WF(b) && s in b.stops && s.typ == TrailingStopMarket && s.side == Sell && Poisoned(s)
    ensures Trail(s, price) in Mark(b, price).stops && s.trailingAmount.Some?
    ensures Raised(s, Trail(s, price), price - s.trailingAmount.value)
    ensures Raised(s, Trail(s, price), s.trigger)
  {
    hide TrailAll;
    ListedStop(b, s);
    TrailedIn(b.stops, price, s);
  }

  /** A cycle that does not fail has run no poisoned stop. */
  lemma PoisonStays(b: Book, price: int, clock: Clock, s: Stop)
    requires WF(b) && s in b.stops && Poisoned(s) && Cycle(b, price, clock).error.None?
    ensures Trail(s, price) in Cycle(b, price, clock).book.stops
  {
    hide WF, Waiting, RunStops, EligibleStops, Eligible;
    WFSane(b);
    MarkKeepsWF(b, price);
    var b1 := Mark(b, price);
    WFSane(b1);
    var el := EligibleStops(b1.stops, price);
    EligibleWaiting(b1, price);
    TrailedIn(b.stops, price, s);
    CycleParts(b, price, clock);
    RunStopsFailsIff(b1, el, clock);
    RunStopsLeaves(b1, el, clock);
    assert Poisoned(Trail(s, price));
    assert forall i :: 0 <= i < |el| ==> !Poisoned(el[i]);
  }

  /** A cascade that does not fail leaves the stop pending, and its trigger at no less than before and
      at no less than the trailing amount below the price that started the cascade. */
  lemma {:induction false} CascadeRaises(b: Book, latest: seq<Trade>, cycle: nat, clock: Clock, s: Stop)
    returns (s': Stop)
    requires WF(b) && s in b.stops && s.typ == TrailingStopMarket && s.side == Sell && Poisoned(s)
    requires Cycles(b, latest, cycle, clock).error.None?
    ensures s' in Cycles(b, latest, cycle, clock).book.stops && Raised(s, s', s.trigger) && s.trailingAmount.Some?
    ensures latest != [] ==> Raised(s, s', LastPrice(latest) - s.trailingAmount.value)
    decreases if cycle > MAX_CYCLES then 0 else MAX_CYCLES + 1 - cycle
  {
    hide WF, Cycle, Trail;
    WFSane(b);
    RaisedByMark(b, s, 0);
    s' := s;
    if latest != [] {
      var price := LastPrice(latest);
      RaisedByMark(b, s, price);
      CycleKeepsWF(b, price, clock);
      PoisonStays(b, price, clock, s);
      var c := Cycle(b, price, clock);
      s' := CascadeRaises(c.book, c.trades, cycle + 1, clock, Trail(s, price));
    }
  }

  /** Sweeping up to a price either is rejected, or raises every trailing sell stop towards that price. */
  lemma SweepRaises(b: Book, s: Stop) returns (s': Stop)
    requires WF(b) && b.asks != [] && s in b.stops && s.typ == TrailingStopMarket && s.side == Sell && Poisoned(s)
    requires Place(b, Market, Sweep(FreeId(b), Buy, Sum(b.asks)), Zero()).outcome.Ok?
    ensures s.trailingAmount.Some?
    ensures s' in Place(b, Market, Sweep(FreeId(b), Buy, Sum(b.asks)), Zero()).book.stops
    ensures Raised(s, s', Px(b.asks[|b.asks| - 1]) - s.trailingAmount.value)
  {
    hide WF, FreeId, Taken, Sum, Poisoned, Trail, NewOrder, Incoming, Submit, Cycles, LiveQueue;
    WFSane(b);
    SweepReaches(b, Buy);
    var input := Sweep(FreeId(b), Buy, Sum(b.asks));
    var o := NewOrder(b.symbol, Market, input).value;
    SweepTrades(o, b.asks);
    SubmitTrades(b, o);
    SubmitKeepsWF(b, o);
    SubmitFrame(b, o);
    var r := Submit(b, o);
    s' := CascadeRaises(r.book, r.trades, 1, Zero(), s);
  }

  /** A poisoned trailing sell stop: sell above everything and buy it all, which raises the stop's trigger
      above zero, if it is not rejected already; then proceed as for any sell stop. */
  lemma TrailingSellBreaks(b: Book, s: Stop)
    requires WF(b) && |b.stops| < MAX_CYCLES && s in b.stops && Poisoned(s)
    requires s.typ == TrailingStopMarket && s.side == Sell
    ensures Sane(b) && Breakable(b)
  {
    hide Breakable, Highest, FreeId, LiveQueue, Place, Poisoned, Sum;
    WFSane(b);
    ListedStop(b, s);
    var amount := s.trailingAmount.value;
    var price := 1 + amount + Max(0, Max(Highest(b.bids), Highest(b.asks)));
    var r := Request(PlaceLimit(Ask1(FreeId(b), Sell, price)), Zero());
    RestsLast(b, Sell, price, Zero());
    ExecKeepsWF(b, r.command, r.clock);
    var b1 := Next(b, r).book;
    SweepOrSellBreaks(b1, s);
    BreaksLater(b, r);
  }

  lemma SweepOrSellBreaks(b: Book, s: Stop)
    requires WF(b) && |b.stops| < MAX_CYCLES && b.asks != [] && s in b.stops && Poisoned(s)
    requires s.typ == TrailingStopMarket && s.side == Sell && s.trailingAmount.Some?
    requires Px(b.asks[|b.asks| - 1]) > s.trailingAmount.value
    ensures Sane(b) && Breakable(b)
  {
    hide WF, FreeId, Taken, Sum, Poisoned, Trail, NewOrder, Place, Incoming, Breakable, Reaches;
    WFSane(b);
    var input := Sweep(FreeId(b), Buy, Sum(b.asks));
    var r := Request(PlaceMarket(input), Zero());
    SweepReaches(b, Buy);
    if Next(b, r).outcome.Err? {
      PlaceErrorIff(b, Market, input, Zero());
      BreaksNow(b, r);
    } else {
      var s' := SweepRaises(b, s);
      ExecKeepsWF(b, r.command, r.clock);
      PlaceKeepsFewStops(b, Market, input, Zero());
      SellStopBreaks(Next(b, r).book, s');
      BreaksLater(b, r);
    }
  }

  lemma PlaceKeepsFewStops(b: Book, typ: OrderType, input: Input, clock: Clock)
    requires WF(b) && typ in {Limit, Market}
    ensures |Place(b, typ, input, clock).book.stops| <= |b.stops|
  {
    hide WF, Taken, Submit, Cycles, LiveQueue;
    WFSane(b);
    if Reaches(b, typ, input) {
      var o := NewOrder(b.symbol, typ, input).value;
      SubmitKeepsWF(b, o);
      SubmitFrame(b, o);
      CyclesKeepWF(Submit(b, o).book, Submit(b, o).trades, 1, clock);
    }
  }

  lemma UnsafeAndRoomyBreaks(b: Book)
    requires WF(b) && |b.stops| < MAX_CYCLES && !Safe(b)
    ensures Sane(b) && Breakable(b)
  {
    hide WF, Breakable;
    var s :| s in b.stops && Poisoned(s) && !Harmless(s);
    ListedStop(b, s);
    if s.side == Buy {
      BuyStopBreaks(b, s);
    } else if s.typ == TrailingStopMarket {
      TrailingSellBreaks(b, s);
    } else {
      SellStopBreaks(b, s);
    }
  }

  /** Cancelling one stop leaves another one pending. */
  lemma CancelOther(b: Book, s: Stop, r: Stop)
    requires WF(b) && s in b.stops && r in b.stops && s != r
    ensures var b' := CancelById(b, r.id).book; s in b'.stops && |b'.stops| == |b.stops| - 1
  {
    ListedStop(b, s);
    ListedStop(b, r);
    WithoutStopParts(b.stops, r.id, b.symbol, b.last.Some?);
  }

  /** A book that is not safe can be made to fail, if need be after cancelling some of its stops. */
  lemma {:induction false} UnsafeBreaks(b: Book)
    requires WF(b) && !Safe(b)
    ensures Sane(b) && Breakable(b)
    decreases |b.stops|
  {
    hide WF, Breakable, Poisoned, Harmless, CancelById;
    WFSane(b);
    if |b.stops| < MAX_CYCLES {
      UnsafeAndRoomyBreaks(b);
    } else {
      var s :| s in b.stops && Poisoned(s) && !Harmless(s);
      var r := if b.stops[0] == s then b.stops[1] else b.stops[0];
      TwoStops(b);
      CancelOther(b, s, r);
      ExecKeepsWF(b, Cancel(r.id), Zero());
      UnsafeBreaks(Next(b, Request(Cancel(r.id), Zero())).book);
      BreaksLater(b, Request(Cancel(r.id), Zero()));
    }
  }

  lemma TwoStops(b: Book)
    requires WF(b) && |b.stops| > 1
    ensures b.stops[0] != b.stops[1]
  {
    assert b.stops[0].id != b.stops[1].id;
  }

  lemma {:induction false} SafeNeverBreaks(b: Book, rs: seq<Request>, r: Request)
    requires WF(b) && Safe(b)
    ensures Sane(b) && !Breaks(b, rs, r)
    decreases |rs|
  {
    hide WF, Safe, Exec;
    WFSane(b);
    if Breaks(b, rs, r) {
      if rs == [] {
        SafeNext(b, r);
      } else {
        SafeNext(b, rs[0]);
        ExecKeepsWF(b, rs[0].command, rs[0].clock);
        assert Breaks(Next(b, rs[0]).book, rs[1..], r);
        SafeNeverBreaks(Next(b, rs[0]).book, rs[1..], r);
      }
    }
  }

  /** The exact condition: with fewer than 1000 stops pending at every limit and market order, rejections
      are atomic in every run from a book if and only if the book is safe. */
  lemma AtomicExactly(b: Book)
    requires WF(b)
    ensures Sane(b) && (Breakable(b) <==> !Safe(b))
  {
    hide WF, Safe, Breaks;
    WFSane(b);
    if Safe(b) {
      forall rs, r
        ensures !Breaks(b, rs, r)
      {
        SafeNeverBreaks(b, rs, r);
      }
    } else {
      UnsafeBreaks(b);
    }
  }

  /** Nothing in the engine refuses such a stop: a stop-market order to buy with a limit price is accepted,
      and the book can fail from then on. */
  lemma PoisonIsAccepted(clock: Clock)
    ensures var input := Input("s", "u", Some(Buy), Some(5), Some(10), None, 1, 0);
            var s := Exec(EmptyBook("SYM"), PlaceStopMarket(input), clock);
            s.outcome.Ok? && !Safe(s.book) && Breakable(s.book)
  {
    var input := Input("s", "u", Some(Buy), Some(5), Some(10), None, 1, 0);
    var b := Exec(EmptyBook("SYM"), PlaceStopMarket(input), clock).book;
    hide Breakable, WF;
    assert !GoSpace("SYM"[0] as int);
    EmptyBookWF("SYM");
    ExecKeepsWF(EmptyBook("SYM"), PlaceStopMarket(input), clock);
    assert b.stops[0] in b.stops && Poisoned(b.stops[0]);
    UnsafeBreaks(b);
  }
}
