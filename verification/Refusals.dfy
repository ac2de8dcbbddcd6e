/** Why a command is refused: its checks in the order in which the engine makes
    them.  The first that fails gives the error, and nothing changes then. */
module Refusals {
  import opened Types
  import opened Matching
  import opened BookSpec
  import opened Invariant
  import opened StopCascade

  /** A check fails if its condition holds. */
  datatype Check = Check(fails: bool, error: Error)

  function FirstFailing(checks: seq<Check>): Option<Error> {
    if checks == [] then None
    else if checks[0].fails then Some(checks[0].error)
    else FirstFailing(checks[1..])
  }

  /** The ids that are in use: of resting orders and of pending stops. */
  function IdsInUse(b: Book): set<string> {
    Ids(b.bids) + Ids(b.asks) + StopIds(b.stops)
  }

  function NotPositive(x: Option<int>): bool {
    x.None? || x.value <= 0
  }

  function OrderChecks(symbol: string, typ: OrderType, input: Input): seq<Check> {
    [Check(input.orderId == "", EmptyOrderId), Check(input.userId == "", EmptyUserId), Check(symbol == "", EmptySymbol),
     Check(input.side.None?, InvalidSide), Check(input.quantity < 1, BadQuantity), Check(input.timestamp < 0, BadTimestamp),
     Check(typ == Limit && NotPositive(input.price), BadPrice),
     Check(typ == Market && input.price.Some?, PricedMarketOrder)]
  }

  function StopChecks(typ: OrderType, input: Input): seq<Check> {
    [Check(input.orderId == "", EmptyOrderId), Check(input.userId == "", EmptyUserId),
     Check(input.side.None?, InvalidSide), Check(input.trigger.None?, BadTrigger), Check(input.quantity < 1, BadQuantity),
     Check(typ == StopLimit && NotPositive(input.price), BadPrice)]
  }

  function TrailingChecks(b: Book, input: Input): seq<Check> {
    [Check(b.last.None?, NoTradeYet), Check(NotPositive(input.trailingAmount), BadTrailingAmount),
     Check(input.side.None?, InvalidSide)]
  }

  function FillChecks(o: Order, quantity: int): seq<Check> {
    [Check(quantity < 1, BadQuantity), Check(o.status == Filled || o.status == Cancelled, OrderInactive),
     Check(quantity > o.remaining, FillTooLarge)]
  }

  /** One check after another. */
  lemma InTurn(checks: seq<Check>)
    ensures checks[0..] == checks
    ensures forall k {:trigger FirstFailing(checks[k..])} :: 0 <= k <= |checks| ==>
              FirstFailing(checks[k..]) == if k == |checks| then None
                                           else if checks[k].fails then Some(checks[k].error)
                                           else FirstFailing(checks[k + 1..])
  {
    forall k {:trigger FirstFailing(checks[k..])} | 0 <= k < |checks|
      ensures FirstFailing(checks[k..]) == if checks[k].fails then Some(checks[k].error) else FirstFailing(checks[k + 1..])
    {
      assert checks[k..][1..] == checks[k + 1..];
    }
  }

  // ------------------------------------------------------------------- orders

  /** A new order is what its input says, open and untouched, unless a check fails. */
  lemma NewOrderChecks(symbol: string, typ: OrderType, input: Input)
    ensures match FirstFailing(OrderChecks(symbol, typ, input))
            case Some(error) => NewOrder(symbol, typ, input) == Err(error)
            case None =>
              && input.side.Some? && NewOrder(symbol, typ, input).Ok?
              && var o := NewOrder(symbol, typ, input).value;
                 && o.id == input.orderId && o.user == input.userId && o.symbol == symbol && o.side == input.side.value
                 && o.typ == typ && o.price == input.price && o.initial == o.remaining == input.quantity
                 && o.status == Open && o.timestamp == input.timestamp
  {
    InTurn(OrderChecks(symbol, typ, input));
  }

  /** A fill takes its quantity off, and fills the order exactly if it takes all, unless a check fails. */
  lemma FillIsChecked(o: Order, quantity: int)
    ensures match FirstFailing(FillChecks(o, quantity))
            case Some(error) => Fill(o, quantity) == Err(error)
            case None =>
              && Fill(o, quantity).Ok?
              && var x := Fill(o, quantity).value;
                 && SameOrder(o, x) && x.remaining == o.remaining - quantity
                 && (x.status == Filled <==> x.remaining == 0) && (x.status == PartiallyFilled <==> x.remaining != 0)
  {
    InTurn(FillChecks(o, quantity));
  }

  lemma CancelIsChecked(o: Order)
    ensures CancelOrder(o) == if o.status in {Filled, Cancelled} then Err(OrderInactive) else Ok(o.(status := Cancelled))
  {
  }

  // ----------------------------------------------------------------- commands

  /** A limit or market order: its id must be free, and then it must pass the checks; whatever fails after that is a
      stop that cannot be executed or the limit on cycles. */
  lemma PlaceIsChecked(b: Book, typ: OrderType, input: Input, clock: Clock)
    requires WF(b) && typ in {Limit, Market}
    ensures Sane(b)
    ensures match FirstFailing([Check(input.orderId in IdsInUse(b), OrderExists)] + OrderChecks(b.symbol, typ, input))
            case Some(error) => Place(b, typ, input, clock) == Step(b, Err(error))
            case None => Place(b, typ, input, clock).outcome.Err? ==>
                           Place(b, typ, input, clock).outcome.error in {PricedMarketOrder, CycleLimit}
  {
    hide WF, NewOrder, Submit, LiveQueue, Ids, StopIds, OrderChecks, Cycles;
    WFSane(b);
    TakenMeans(b, input.orderId);
    NewOrderChecks(b.symbol, typ, input);
    assert ([Check(input.orderId in IdsInUse(b), OrderExists)] + OrderChecks(b.symbol, typ, input))[1..]
           == OrderChecks(b.symbol, typ, input);
    if !Taken(b, input.orderId) && NewOrder(b.symbol, typ, input).Ok? {
      var o := NewOrder(b.symbol, typ, input).value;
      NewOrderIncoming(b.symbol, typ, input);
      SubmitKeepsWF(b, o);
      CascadeErrors(Submit(b, o).book, Submit(b, o).trades, 1, clock);
    }
  }

  lemma {:induction false} RunStopsErrors(b: Book, el: seq<Stop>, clock: Clock)
    requires WF(b) && Waiting(b, el)
    ensures var e := RunStops(b, el, clock).error; e.Some? ==> e.value == PricedMarketOrder
    decreases |el|
  {
    hide WF, Waiting, RunStop, Sane;
    WFSane(b);
    if el != [] {
      var now := clock(el[0].id);
      HeadIsPending(b, el);
      RunStopFailsIff(b, el[0], now);
      RunStopKeepsWF(b, el[0], now);
      WaitingTail(b, el, now);
      if RunStop(b, el[0], now).error.None? {
        RunStopsErrors(RunStop(b, el[0], now).book, el[1..], clock);
      }
    }
  }

  lemma {:induction false} CascadeErrors(b: Book, latest: seq<Trade>, cycle: nat, clock: Clock)
    requires WF(b)
    ensures var e := Cycles(b, latest, cycle, clock).error; e.Some? ==> e.value in {PricedMarketOrder, CycleLimit}
    decreases if cycle > MAX_CYCLES then 0 else MAX_CYCLES + 1 - cycle
  {
    hide WF, RunStops, EligibleStops, Waiting, Sane, Mark;
    WFSane(b);
    if latest != [] && cycle <= MAX_CYCLES {
      var price := LastPrice(latest);
      MarkKeepsWF(b, price);
      CycleKeepsWF(b, price, clock);
      CycleParts(b, price, clock);
      EligibleWaiting(Mark(b, price), price);
      RunStopsErrors(Mark(b, price), EligibleStops(Mark(b, price).stops, price), clock);
      var c := Cycle(b, price, clock);
      if c.error.None? {
        CascadeErrors(c.book, c.trades, cycle + 1, clock);
      }
    }
  }

  /** A stop: its id must be free, and then it must pass the checks, and it is accepted. */
  lemma StopIsChecked(b: Book, typ: OrderType, input: Input, peak: Option<int>, valley: Option<int>)
    requires WF(b)
    ensures Sane(b)
    ensures match FirstFailing([Check(input.orderId in IdsInUse(b), OrderExists)] + StopChecks(typ, input))
            case Some(error) => PlaceStop(b, typ, input, peak, valley) == Step(b, Err(error))
            case None => PlaceStop(b, typ, input, peak, valley).outcome.Ok?
  {
    hide WF, Ids, StopIds;
    WFSane(b);
    TakenMeans(b, input.orderId);
    InTurn([Check(input.orderId in IdsInUse(b), OrderExists)] + StopChecks(typ, input));
  }

  /** A trailing stop: there must have been a trade, and its own checks come before those of every stop. */
  lemma TrailingIsChecked(b: Book, input: Input)
    requires WF(b)
    ensures Sane(b)
    ensures match FirstFailing(TrailingChecks(b, input) + [Check(input.orderId in IdsInUse(b), OrderExists)]
                               + StopChecks(TrailingStopMarket, input.(trigger := Some(0))))
            case Some(error) => PlaceTrailing(b, input) == Step(b, Err(error))
            case None => PlaceTrailing(b, input).outcome.Ok?
  {
    hide WF, Ids, StopIds, IdsInUse, PlaceStop, StopChecks;
    WFSane(b);
    var taken := Check(input.orderId in IdsInUse(b), OrderExists);
    InTurn(TrailingChecks(b, input));
    FirstOfTwo(TrailingChecks(b, input), [taken] + StopChecks(TrailingStopMarket, input.(trigger := Some(0))));
    assert TrailingChecks(b, input) + ([taken] + StopChecks(TrailingStopMarket, input.(trigger := Some(0))))
           == TrailingChecks(b, input) + [taken] + StopChecks(TrailingStopMarket, input.(trigger := Some(0)));
    if FirstFailing(TrailingChecks(b, input)).None? {
      var last, amount, sells := b.last.value, input.trailingAmount.value, input.side.value == Sell;
      var trigger := Some(if sells then last - amount else last + amount);
      SameChecks(input, trigger);
      StopIsChecked(b, TrailingStopMarket, input.(trigger := trigger), if sells then Some(last) else None,
                    if sells then None else Some(last));
    }
  }

  lemma SameChecks(input: Input, trigger: Option<int>)
    requires trigger.Some?
    ensures StopChecks(TrailingStopMarket, input.(trigger := trigger))
            == StopChecks(TrailingStopMarket, input.(trigger := Some(0)))
  {
  }

  lemma {:induction false} FirstOfTwo(a: seq<Check>, b: seq<Check>)
    ensures FirstFailing(a + b) == if FirstFailing(a).Some? then FirstFailing(a) else FirstFailing(b)
  {
    if a == [] {
      assert a + b == b;
    } else {
      assert (a + b)[0] == a[0] && (a + b)[1..] == a[1..] + b;
      FirstOfTwo(a[1..], b);
    }
  }

  /** Cancelling: the id must be in use. */
  lemma CancelIsCheckedIn(b: Book, id: string)
    requires WF(b)
    ensures Sane(b)
    ensures if id in IdsInUse(b) then CancelById(b, id).outcome.Ok? else CancelById(b, id) == Step(b, Err(OrderNotFound))
  {
    hide WF, Ids, StopIds, IndexOf, StopIndex;
    WFSane(b);
    HoldsIffIn(b.bids, id);
    HoldsIffIn(b.asks, id);
    StopHoldsIffIn(b.stops, id);
  }
}
