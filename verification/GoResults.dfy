/** What the worker's stop loops gather, as they go, against the cascade of the
    specification, which is built from its end. */
module GoResults {
  import opened Types
  import opened Matching
  import opened BookSpec
  import opened Invariant

  /** What has been gathered so far. `events` counts events, `fills` are the
      snapshots in the fill events, `marks` the last prices set. */
  datatype StopResult = StopResult(
    trades: seq<Trade>,
    triggered: seq<Stop>,
    fills: seq<Order>,
    events: nat,
    marks: seq<int>)

  const NoResult := StopResult([], [], [], 0, [])

  function More(r: StopResult, s: StopResult): StopResult {
    StopResult(r.trades + s.trades, r.triggered + s.triggered, r.fills + s.fills, r.events + s.events, r.marks + s.marks)
  }

  function AsCascade(r: StopResult, b: Book, error: Option<Error>): Cascade {
    Cascade(b, r.trades, r.triggered, r.fills, r.events, r.marks, error)
  }

  /** Gathered so far, followed by what is still to come. */
  function After(r: StopResult, c: Cascade): Cascade {
    Then(AsCascade(r, c.book, None), c)
  }

  /** What one stop reports: its trades, itself, its order, and its events. */
  function Ran(stop: Stop, order: Order, ts: seq<Trade>): StopResult {
    StopResult(ts, [stop.(status := Triggered)], [order],
               2 + |ts| + (if order.status == Open && order.remaining > 0 then 1 else 0), [])
  }

  lemma NotListed(b: Book, id: string)
    requires !Taken(b, id)
    ensures WithoutStop(b.stops, id) == b.stops
  {
  }

  /** A stop that is taken off the list leaves its id free, and no other id is taken. */
  lemma FreedOrFree(b: Book, id: string, other: string)
    requires WF(b) && HoldsStop(b.stops, id)
    ensures var b' := b.(stops := WithoutStop(b.stops, id)); !Taken(b', id) && (!Taken(b, other) ==> !Taken(b', other))
    ensures other in Ids(b.bids) + Ids(b.asks) || !Taken(b, other) ==> other != id
  {
    hide SideOk, StopsOk, Ids, StopIds, Taken, WithoutStop;
    WithoutStopKeeps(b, id);
    WithoutStopParts(b.stops, id, b.symbol, b.last.Some?);
    TakenMeans(b, id);
    TakenMeans(b, other);
    TakenMeans(b.(stops := WithoutStop(b.stops, id)), other);
    StopHoldsIffIn(b.stops, id);
  }

  lemma ProducesIncoming(symbol: string, typ: OrderType, input: Input)
    requires typ in {Limit, Market}
    ensures NewOrder(symbol, typ, input).Ok? ==>
              var o := NewOrder(symbol, typ, input).value;
              Incoming(o) && o.symbol == symbol && o.id == input.orderId && o.typ == typ
  {
  }

  lemma AfterNothing(c: Cascade)
    ensures After(NoResult, c) == c
  {
    assert [] + c.trades == c.trades && [] + c.triggered == c.triggered;
    assert [] + c.fills == c.fills && [] + c.marks == c.marks;
  }

  lemma AfterEnd(r: StopResult, b: Book, error: Option<Error>)
    ensures After(r, Nothing(b).(error := error)) == AsCascade(r, b, error)
  {
    assert r.trades + [] == r.trades && r.triggered + [] == r.triggered;
    assert r.fills + [] == r.fills && r.marks + [] == r.marks;
  }

  lemma AfterMore(r: StopResult, s: StopResult, b: Book, c: Cascade)
    ensures After(r, Then(AsCascade(s, b, None), c)) == After(More(r, s), c)
  {
    assert r.trades + (s.trades + c.trades) == (r.trades + s.trades) + c.trades;
    assert r.triggered + (s.triggered + c.triggered) == (r.triggered + s.triggered) + c.triggered;
    assert r.fills + (s.fills + c.fills) == (r.fills + s.fills) + c.fills;
    assert r.marks + (s.marks + c.marks) == (r.marks + s.marks) + c.marks;
  }

  lemma AfterFailed(r: StopResult, s: StopResult, b: Book, error: Error)
    ensures After(r, AsCascade(s, b, Some(error))) == AsCascade(More(r, s), b, Some(error))
  {
  }

  /** Running a stop that was taken off the list beforehand. */
  lemma RunOnceOff(b: Book, s: Stop, now: nat)
    requires Sane(b)
    ensures var b' := b.(stops := WithoutStop(b.stops, s.id));
            !Taken(b', s.id) ==> RunStop(b', s, now) == RunStop(b, s, now)
  {
    hide BookSpec.Submit, LiveQueue, NewOrder;
  }

  lemma NextIsPending(b: Book, el: seq<Stop>)
    requires Waiting(b, el) && el != []
    ensures el[0] in b.stops
  {
  }

  /** The next stop of a cycle has run: it failed, or the rest of the cycle follows. */
  lemma RunStopsNext(b: Book, el: seq<Stop>, clock: Clock, r: StopResult, one: StopResult, b': Book, error: Option<Error>)
    requires WF(b) && Waiting(b, el) && el != [] && Sane(b) && Sane(b')
    requires RunStop(b, el[0], clock(el[0].id)) == AsCascade(one, b', error)
    ensures Waiting(b', el[1..])
    ensures After(r, RunStops(b, el, clock))
            == if error.Some? then AsCascade(More(r, one), b', error)
               else After(More(r, one), RunStops(b', el[1..], clock))
  {
    hide WF, RunStop, Waiting, Sane, After;
    WaitingTail(b, el, clock(el[0].id));
    if error.None? {
      AfterMore(r, one, b', RunStops(b', el[1..], clock));
    } else {
      AfterFailed(r, one, b', error.value);
    }
  }

  lemma RunStopsDone(b: Book, el: seq<Stop>, clock: Clock, r: StopResult)
    requires Sane(b) && el == []
    ensures After(r, RunStops(b, el, clock)) == AsCascade(r, b, None)
  {
    AfterEnd(r, b, None);
  }

  /** What a cycle gathers: the price it marked, and what its stops did. */
  function Marked(price: int, r: StopResult): StopResult {
    r.(marks := [price] + r.marks)
  }

  /** A cycle has run: it failed, or the cycles after it follow. */
  lemma CyclesNext(b: Book, latest: seq<Trade>, cycle: nat, clock: Clock, r: StopResult, one: StopResult, b': Book,
                   error: Option<Error>)
    requires Sane(b) && Sane(b') && latest != [] && cycle <= MAX_CYCLES
    requires var b1 := Mark(b, LastPrice(latest));
             RunStops(b1, EligibleStops(b1.stops, LastPrice(latest)), clock) == AsCascade(one, b', error)
    ensures After(r, Cycles(b, latest, cycle, clock))
            == if error.Some? then AsCascade(More(r, Marked(LastPrice(latest), one)), b', error)
               else After(More(r, Marked(LastPrice(latest), one)), Cycles(b', one.trades, cycle + 1, clock))
  {
    hide RunStops, EligibleStops, LiveQueue, More, After;
    var price := LastPrice(latest);
    var b1 := Mark(b, price);
    var c := AsCascade(one, b', error);
    assert Then(Nothing(b1).(marks := [price]), c) == AsCascade(Marked(price, one), b', error) by {
      assert [] + one.trades == one.trades && [] + one.triggered == one.triggered && [] + one.fills == one.fills;
    }
    if error.None? {
      AfterMore(r, Marked(price, one), b', Cycles(b', one.trades, cycle + 1, clock));
    } else {
      AfterFailed(r, Marked(price, one), b', error.value);
    }
  }

  lemma CyclesDone(b: Book, latest: seq<Trade>, cycle: nat, clock: Clock, r: StopResult)
    requires Sane(b) && latest == []
    ensures After(r, Cycles(b, latest, cycle, clock)) == AsCascade(r, b, None)
  {
    AfterEnd(r, b, None);
  }

  lemma CyclesExceeded(b: Book, latest: seq<Trade>, cycle: nat, clock: Clock, r: StopResult)
    requires Sane(b) && latest != [] && cycle > MAX_CYCLES
    ensures After(r, Cycles(b, latest, cycle, clock)) == AsCascade(r, b, Some(CycleLimit))
  {
    AfterEnd(r, b, Some(CycleLimit));
  }

  /** Marking the price takes no id and frees none. */
  lemma MarkTakes(b: Book, price: int, id: string)
    ensures Taken(Mark(b, price), id) <==> Taken(b, id)
  {
    hide IndexOf;
    StopHoldsIffIn(b.stops, id);
    StopHoldsIffIn(Mark(b, price).stops, id);
    var stops := TrailAll(b.stops, price);
    assert forall i :: 0 <= i < |stops| ==> stops[i].id == b.stops[i].id;
    assert StopIds(stops) == StopIds(b.stops);
  }

  /** Submitting an order brings no other id into the book than its own. */
  lemma SubmitIds(b: Book, o: Order)
    requires WF(b) && Submittable(b, o)
    ensures var r := Submit(b, o).book; Ids(r.bids) + Ids(r.asks) <= Ids(b.bids) + Ids(b.asks) + {o.id}
  {
    hide SideOk, StopsOk, Ids, StopIds, Match, LiveQueue, Insert, Taken;
    OppositeAfterMatch(b, o);
    var m := Match(o, Opposite(b, o.side), o.typ != Limit);
    InsertIds(Own(b, o.side), m.incoming);
  }

  /** The stops stay, so a taken id that is no longer the id of a resting order is free. */
  lemma SubmitTakesNoId(b: Book, o: Order, id: string)
    requires WF(b) && Submittable(b, o)
    ensures var r := Submit(b, o).book;
            && (id != o.id && !Taken(b, id) ==> !Taken(r, id))
            && (id in Ids(b.bids) + Ids(b.asks) ==>
                  id != o.id && (id !in Ids(r.bids) + Ids(r.asks) ==> !Taken(r, id)))
  {
    hide SideOk, StopsOk, Match, LiveQueue, Insert, Ids, StopIds, Taken, BookSpec.Submit;
    TakenMeans(b, o.id);
    TakenMeans(b, id);
    SubmitFrame(b, o);
    SubmitIds(b, o);
    TakenMeans(Submit(b, o).book, id);
  }

  lemma PlaceRejects(b: Book, typ: OrderType, input: Input, clock: Clock)
    requires Sane(b)
    ensures Taken(b, input.orderId) ==> Place(b, typ, input, clock) == Step(b, Err(OrderExists))
    ensures !Taken(b, input.orderId) && NewOrder(b.symbol, typ, input).Err? ==>
              Place(b, typ, input, clock) == Step(b, Err(NewOrder(b.symbol, typ, input).error))
  {
    hide Taken, NewOrder, BookSpec.Submit, BookSpec.ProcessStops, LiveQueue;
  }

  /** The reply to a placed order: an acceptance, a fill and a book event, one for a rested order, and those of
      the trades and stops. */
  function Answer(typ: OrderType, first: Order, ts: seq<Trade>, c: StopResult, final: Order): Reply {
    Reply(OrderPlaced(final), ts + c.trades, c.triggered, [first] + c.fills, c.marks,
          3 + |ts| + (if typ == Limit && Live(first) then 1 else 0) + c.events)
  }

  /** Placing an order that is valid: submit it, run the stops, number the events. */
  lemma PlaceSteps(b: Book, typ: OrderType, input: Input, clock: Clock, s: Submitted, c: StopResult, b': Book,
                   error: Option<Error>)
    requires Sane(b) && !Taken(b, input.orderId) && NewOrder(b.symbol, typ, input).Ok?
    requires Incoming(NewOrder(b.symbol, typ, input).value) && Sane(s.book)
    requires BookSpec.Submit(b, NewOrder(b.symbol, typ, input).value) == s
    requires BookSpec.ProcessStops(s.book, s.trades, clock) == AsCascade(c, b', error)
    ensures Place(b, typ, input, clock)
            == if error.Some? then Step(b', Err(error.value)) else
               var reply := Answer(typ, s.order, s.trades, c, FinalOrder(b', s.order));
               Step(b'.(sequence := b'.sequence + reply.events), Ok(reply))
  {
    hide Taken, NewOrder, BookSpec.Submit, BookSpec.ProcessStops, LiveQueue, FinalOrder, Live, Incoming;
  }

  /** Cancelling a resting order: it leaves its queue, and two events are numbered. */
  lemma CancelSteps(b: Book, o: Order)
    requires Sane(b) && Holds(Own(b, o.side), o.id) && Own(b, o.side)[IndexOf(Own(b, o.side), o.id)] == o
    ensures var c := SetQueues(b, o.side, Without(Own(b, o.side), o.id), Opposite(b, o.side));
            CancelOnSide(b, o.side, o.id)
            == Step(c.(sequence := c.sequence + 2),
                    Ok(Reply(OrderPlaced(o.(status := Cancelled)), [], [], [], [], 2)))
  {
    hide Without, LiveQueue;
  }

  lemma SidesDisjoint(b: Book, id: string)
    requires WF(b)
    ensures !(Holds(b.bids, id) && Holds(b.asks, id))
  {
    hide SideOk, StopsOk, StopIds, LiveQueue, IndexOf;
    HoldsIffIn(b.bids, id);
    HoldsIffIn(b.asks, id);
  }
}
