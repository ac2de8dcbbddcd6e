/** The book invariant, and that every command keeps it, whether the command
    succeeds or returns an error, and however far its stop cascade runs. */
module Invariant {
  import opened Types
  import opened Matching
  import opened BookSpec

  // --------------------------------------------------------------- invariant

  /** One side: live orders of this side and symbol in price-time order, no id twice. */
  predicate SideOk(q: seq<Order>, side: Side, symbol: string) {
    && LiveQueue(q) && Sorted(q) && NoDup(q)
    && forall i :: 0 <= i < |q| ==> q[i].side == side && q[i].symbol == symbol
  }

  /** A pending stop as the placing commands leave it: the trigger of a
      trailing stop sits at the trailing amount from its extreme. */
  predicate StopOk(s: Stop, symbol: string) {
    && s.id != "" && s.user != "" && s.symbol == symbol
    && 0 < s.remaining && s.remaining == s.quantity && s.status == Open
    && s.typ in {StopMarket, StopLimit, TrailingStopMarket}
    && (s.typ == StopLimit ==> s.price.Some? && s.price.value > 0)
    && (s.typ == TrailingStopMarket ==>
          && s.trailingAmount.Some? && s.trailingAmount.value > 0
          && (s.side == Sell ==> s.peak.Some? && s.trigger == s.peak.value - s.trailingAmount.value)
          && (s.side == Buy ==> s.valley.Some? && s.trigger == s.valley.value + s.trailingAmount.value))
  }

  predicate NoDupStops(stops: seq<Stop>) {
    forall i, j :: 0 <= i < j < |stops| ==> stops[i].id != stops[j].id
  }

  predicate StopsOk(stops: seq<Stop>, symbol: string, traded: bool) {
    && (forall i :: 0 <= i < |stops| ==>
          StopOk(stops[i], symbol) && (stops[i].typ == TrailingStopMarket ==> traded))
    && NoDupStops(stops)
  }

  function StopIds(stops: seq<Stop>): set<string> {
    set i | 0 <= i < |stops| :: stops[i].id
  }

  /** No id is in two of the three places. */
  predicate Apart(b: Book) {
    && Ids(b.bids) !! Ids(b.asks)
    && StopIds(b.stops) !! Ids(b.bids)
    && StopIds(b.stops) !! Ids(b.asks)
  }

  /** The best bid is strictly below the best ask. */
  predicate Uncrossed(b: Book) {
    b.bids != [] && b.asks != [] ==> Px(b.bids[0]) < Px(b.asks[0])
  }

  predicate WF(b: Book) {
    && Sane(b)
    && b.symbol != "" && !Blank(b.symbol)
    && SideOk(b.bids, Buy, b.symbol)
    && SideOk(b.asks, Sell, b.symbol)
    && StopsOk(b.stops, b.symbol, b.last.Some?)
    && Apart(b)
    && Uncrossed(b)
  }

  lemma EmptyBookWF(symbol: string)
    requires !Blank(symbol)
    ensures WF(EmptyBook(symbol))
  {
    if symbol == "" {
      assert Blank(symbol);
    }
  }

  /** No order of the uncrossed book could trade with any order of the other side. */
  lemma UncrossedThroughout(b: Book, i: nat, j: nat)
    requires WF(b) && i < |b.bids| && j < |b.asks|
    ensures Px(b.bids[i]) < Px(b.asks[j])
  {
    assert i > 0 ==> Rank(b.bids[0]) <= Rank(b.bids[i]);
    assert j > 0 ==> Rank(b.asks[0]) <= Rank(b.asks[j]);
  }

  // ---------------------------------------------------------------- queues

  /** `q'` is an end piece of `q`, but for what orders have left to trade. */
  predicate EndOf(q: seq<Order>, q': seq<Order>) {
    && |q'| <= |q|
    && forall i :: 0 <= i < |q'| ==> SameOrder(q[|q| - |q'| + i], q'[i])
  }

  lemma MatchLeavesEnd(inc: Order, q: seq<Order>, ignorePrice: bool)
    requires Incoming(inc) && LiveQueue(q)
    requires !ignorePrice ==> inc.price.Some?
    ensures EndOf(q, Match(inc, q, ignorePrice).queue)
  {
    MatchQueue(inc, q, ignorePrice);
  }

  lemma EndKeepsSide(q: seq<Order>, q': seq<Order>, side: Side, symbol: string)
    requires SideOk(q, side, symbol) && EndOf(q, q') && LiveQueue(q')
    ensures SideOk(q', side, symbol)
    ensures Ids(q') <= Ids(q)
    ensures q' != [] ==> q != [] && Rank(q[0]) <= Rank(q'[0])
  {
    var d := |q| - |q'|;
    forall i | 0 <= i < |q'|
      ensures q[d + i].id == q'[i].id && Rank(q[d + i]) == Rank(q'[i])
      ensures q[d + i].side == q'[i].side && q[d + i].symbol == q'[i].symbol
    {
      assert SameOrder(q[d + i], q'[i]);
    }
    forall id | id in Ids(q')
      ensures id in Ids(q)
    {
      var i :| 0 <= i < |q'| && q'[i].id == id;
      assert q[d + i].id == id;
    }
  }

  lemma InsertAt(q: seq<Order>, o: Order, i: nat)
    requires i <= |q|
    ensures var k := Slot(q, o);
            |Insert(q, o)| == |q| + 1
            && Insert(q, o)[i] == if i < k then q[i] else if i == k then o else q[i - 1]
  {
  }

  lemma InsertIds(q: seq<Order>, o: Order)
    ensures Ids(Insert(q, o)) == Ids(q) + {o.id}
  {
    var k, r := Slot(q, o), Insert(q, o);
    assert r[k] == o;
    assert forall i :: 0 <= i < |q| ==> q[i] == r[if i < k then i else i + 1];
  }

  lemma InsertInOrder(q: seq<Order>, o: Order, i: nat, j: nat)
    requires Sorted(q) && NoDup(q) && o.id !in Ids(q) && i < j <= |q|
    ensures |Insert(q, o)| == |q| + 1
    ensures Rank(Insert(q, o)[i]) <= Rank(Insert(q, o)[j])
    ensures Insert(q, o)[i].id != Insert(q, o)[j].id
  {
    var k := Slot(q, o);
    InsertAt(q, o, i);
    InsertAt(q, o, j);
    if i < k {
      assert q[i].id in Ids(q);
    }
    if k < j {
      assert q[j - 1].id in Ids(q);
      assert k < j - 1 ==> Rank(q[k]) <= Rank(q[j - 1]);
    }
  }

  lemma InsertKeepsSide(q: seq<Order>, o: Order, side: Side)
    requires SideOk(q, side, o.symbol) && Live(o) && o.side == side && o.id !in Ids(q)
    ensures SideOk(Insert(q, o), side, o.symbol)
    ensures Insert(q, o)[0] == o || (q != [] && Insert(q, o)[0] == q[0])
  {
    hide Live, Insert, Slot, Ids;
    InsertAt(q, o, 0);
    forall i | 0 <= i < |Insert(q, o)|
      ensures var r := Insert(q, o); Live(r[i]) && r[i].side == side && r[i].symbol == o.symbol
    {
      InsertAt(q, o, i);
    }
    forall i, j | 0 <= i < j < |Insert(q, o)|
      ensures var r := Insert(q, o); Rank(r[i]) <= Rank(r[j]) && r[i].id != r[j].id
    {
      InsertInOrder(q, o, i, j);
    }
  }

  lemma HoldsIffIn(q: seq<Order>, id: string)
    ensures Holds(q, id) <==> id in Ids(q)
  {
  }

  /** The queue without the `k`-th order. */
  lemma WithoutAt(q: seq<Order>, id: string, i: nat)
    requires NoDup(q) && Holds(q, id) && i < |Without(q, id)|
    ensures var k := IndexOf(q, id);
            |Without(q, id)| == |q| - 1 && Without(q, id)[i] == q[if i < k then i else i + 1] && Without(q, id)[i].id != id
  {
    hide IndexOf;
    var k := IndexOf(q, id);
    assert k <= i ==> q[k].id != q[i + 1].id;
  }

  lemma WithoutKeepsSide(q: seq<Order>, id: string, side: Side, symbol: string)
    requires SideOk(q, side, symbol)
    ensures SideOk(Without(q, id), side, symbol)
    ensures Ids(Without(q, id)) == Ids(q) - {id}
    ensures Without(q, id) != [] ==> q != [] && Rank(q[0]) <= Rank(Without(q, id)[0])
  {
    hide IndexOf, Live, Ids, Without;
    var k, r := IndexOf(q, id), Without(q, id);
    if Holds(q, id) {
      forall i | 0 <= i < |r|
        ensures |r| == |q| - 1 && r[i] == q[if i < k then i else i + 1] && r[i].id != id
      {
        WithoutAt(q, id, i);
      }
      WithoutIdsOf(q, id);
    } else {
      WithoutNothing(q, id);
    }
  }

  lemma WithoutNothing(q: seq<Order>, id: string)
    requires !Holds(q, id)
    ensures Without(q, id) == q && id !in Ids(q)
  {
  }

  lemma WithoutIdsOf(q: seq<Order>, id: string)
    requires NoDup(q) && Holds(q, id)
    ensures Ids(Without(q, id)) == Ids(q) - {id}
  {
    hide IndexOf, Without, NoDup;
    var k, r := IndexOf(q, id), Without(q, id);
    WithoutLength(q, id);
    forall i | 0 <= i < |r|
      ensures r[i].id in Ids(q) && r[i].id != id
    {
      WithoutAt(q, id, i);
    }
    forall i | 0 <= i < |q| && q[i].id != id
      ensures q[i].id in Ids(r)
    {
      WithoutAt(q, id, if i < k then i else i - 1);
    }
  }

  lemma WithoutLength(q: seq<Order>, id: string)
    requires Holds(q, id)
    ensures |Without(q, id)| == |q| - 1
  {
  }

  lemma StopHoldsIffIn(stops: seq<Stop>, id: string)
    ensures HoldsStop(stops, id) <==> id in StopIds(stops)
  {
  }

  /** An id is taken exactly if it is the id of a resting order or of a pending stop. */
  lemma TakenMeans(b: Book, id: string)
    ensures Taken(b, id) <==> id in Ids(b.bids) + Ids(b.asks) + StopIds(b.stops)
  {
    HoldsIffIn(b.bids, id);
    HoldsIffIn(b.asks, id);
    StopHoldsIffIn(b.stops, id);
  }

  // ----------------------------------------------------------------- submit

  /** An order that may be submitted to a book. */
  predicate Submittable(b: Book, o: Order) {
    Incoming(o) && o.symbol == b.symbol && !Taken(b, o.id)
  }

  function Other(side: Side): Side {
    if side == Buy then Sell else Buy
  }

  lemma OppositeAfterMatch(b: Book, o: Order)
    requires WF(b) && Submittable(b, o)
    ensures var q, m := Opposite(b, o.side), Match(o, Opposite(b, o.side), o.typ != Limit);
            && SideOk(m.queue, Other(o.side), b.symbol)
            && Ids(m.queue) <= Ids(q)
            && (m.queue != [] ==>
                  && q != [] && Rank(q[0]) <= Rank(m.queue[0])
                  && q[0].side == Other(o.side) && m.queue[0].side == Other(o.side))
            && Stops(m.incoming, m.queue, o.typ != Limit)
  {
    var q := Opposite(b, o.side);
    MatchLeavesEnd(o, q, o.typ != Limit);
    MatchStops(o, q, o.typ != Limit);
    var m := Match(o, q, o.typ != Limit);
    EndKeepsSide(q, m.queue, Other(o.side), b.symbol);
    HeadSide(q, Other(o.side), b.symbol);
    HeadSide(m.queue, Other(o.side), b.symbol);
  }

  /** Rebuilding a book from two sides that are right apart from each other. */
  lemma AssembleWF(b: Book, side: Side, own: seq<Order>, opp: seq<Order>, extra: set<string>, trades: seq<Trade>)
    requires WF(b)
    requires SideOk(own, side, b.symbol) && SideOk(opp, Other(side), b.symbol)
    requires Ids(own) <= Ids(Own(b, side)) + extra && Ids(opp) <= Ids(Opposite(b, side))
    requires extra !! Ids(b.bids) + Ids(b.asks) + StopIds(b.stops)
    requires own != [] && opp != [] ==> Rank(own[0]) + Rank(opp[0]) > 0
    ensures WF(SetQueues(b, side, own, opp).(trades := trades))
  {
    HeadSide(own, side, b.symbol);
    HeadSide(opp, Other(side), b.symbol);
    hide SideOk, StopsOk, Ids, StopIds;
  }

  lemma SpreadPositive(b: Book, side: Side)
    requires WF(b)
    ensures var own, opp := Own(b, side), Opposite(b, side);
            own != [] && opp != [] ==> Rank(own[0]) + Rank(opp[0]) > 0
  {
  }

  lemma WFSane(b: Book)
    requires WF(b)
    ensures Sane(b)
  {
  }

  lemma SubmitFrame(b: Book, o: Order)
    requires Sane(b) && Incoming(o)
    ensures var b' := Submit(b, o).book;
            b'.stops == b.stops && b'.last == b.last && b'.symbol == b.symbol && b'.sequence == b.sequence
  {
    hide Match, Insert, LiveQueue;
  }

  lemma SubmitRests(b: Book, o: Order)
    requires WF(b) && Submittable(b, o)
    requires o.typ == Limit && Match(o, Opposite(b, o.side), false).incoming.remaining > 0
    ensures WF(Submit(b, o).book)
  {
    hide SideOk, StopsOk, Ids, StopIds, Insert, Match, LiveQueue, Taken;
    var own := Own(b, o.side);
    var m := Match(o, Opposite(b, o.side), false);
    TakenMeans(b, o.id);
    OppositeAfterMatch(b, o);
    HeadSide(own, o.side, b.symbol);
    InsertKeepsSide(own, m.incoming, o.side);
    InsertIds(own, m.incoming);
    SpreadPositive(b, o.side);
    AssembleWF(b, o.side, Insert(own, m.incoming), m.queue, {o.id}, b.trades + m.trades);
  }

  lemma SubmitDoesNotRest(b: Book, o: Order)
    requires WF(b) && Submittable(b, o)
    requires o.typ != Limit || Match(o, Opposite(b, o.side), false).incoming.remaining <= 0
    ensures WF(Submit(b, o).book)
  {
    hide SideOk, StopsOk, Ids, StopIds, Insert, Match, LiveQueue, Taken;
    var m := Match(o, Opposite(b, o.side), o.typ != Limit);
    OppositeAfterMatch(b, o);
    SpreadPositive(b, o.side);
    AssembleWF(b, o.side, Own(b, o.side), m.queue, {}, b.trades + m.trades);
  }

  lemma SubmitKeepsWF(b: Book, o: Order)
    requires WF(b) && Submittable(b, o)
    ensures WF(Submit(b, o).book)
  {
    if o.typ == Limit && Match(o, Opposite(b, o.side), false).incoming.remaining > 0 {
      SubmitRests(b, o);
    } else {
      SubmitDoesNotRest(b, o);
    }
  }

  lemma HeadSide(q: seq<Order>, side: Side, symbol: string)
    requires SideOk(q, side, symbol)
    ensures q != [] ==> q[0].side == side
  {
  }

  /** The loop is left only in a state in which it stops. */
  lemma {:induction false} MatchStops(inc: Order, q: seq<Order>, ignorePrice: bool)
    requires Incoming(inc) && LiveQueue(q)
    requires !ignorePrice ==> inc.price.Some?
    ensures var m := Match(inc, q, ignorePrice); Stops(m.incoming, m.queue, ignorePrice)
    decreases |q|
  {
    if !Stops(inc, q, ignorePrice) {
      FillsNeverFail(inc, q, ignorePrice);
      if inc.remaining >= q[0].remaining {
        MatchStops(FilledBy(inc, q[0].remaining), q[1..], ignorePrice);
      }
    }
  }

  // ------------------------------------------------------------------ stops

  lemma WithoutStopParts(stops: seq<Stop>, id: string, symbol: string, traded: bool)
    requires StopsOk(stops, symbol, traded)
    ensures StopsOk(WithoutStop(stops, id), symbol, traded)
    ensures StopIds(WithoutStop(stops, id)) == StopIds(stops) - {id}
    ensures HoldsStop(stops, id) ==> |WithoutStop(stops, id)| == |stops| - 1
    ensures forall s :: s in WithoutStop(stops, id) <==> s in stops && s.id != id
  {
    var k, r := StopIndex(stops, id), WithoutStop(stops, id);
    if k < |stops| {
      forall i | 0 <= i < |r|
        ensures r[i] == stops[if i < k then i else i + 1] && r[i].id != id
      {
        assert k <= i ==> stops[k].id != stops[i + 1].id;
      }
      forall i | 0 <= i < |stops| && stops[i].id != id
        ensures stops[i] in r
      {
        assert stops[i] == r[if i < k then i else i - 1];
      }
    }
  }

  lemma WithoutStopKeeps(b: Book, id: string)
    requires WF(b)
    ensures WF(b.(stops := WithoutStop(b.stops, id)))
    ensures HoldsStop(b.stops, id) ==> !Taken(b.(stops := WithoutStop(b.stops, id)), id)
  {
    hide SideOk, StopsOk, Ids, StopIds, WithoutStop;
    WithoutStopParts(b.stops, id, b.symbol, b.last.Some?);
    TakenMeans(b.(stops := WithoutStop(b.stops, id)), id);
    StopHoldsIffIn(b.stops, id);
  }

  /** Listed stops are found under their id. */
  lemma ListedStop(b: Book, s: Stop)
    requires WF(b) && s in b.stops
    ensures HoldsStop(b.stops, s.id) && b.stops[StopIndex(b.stops, s.id)] == s
    ensures StopOk(s, b.symbol)
  {
    var i :| 0 <= i < |b.stops| && b.stops[i] == s;
    var k := StopIndex(b.stops, s.id);
    DistinctIndex(b.stops, k, i);
  }

  lemma DistinctIndex(stops: seq<Stop>, i: nat, j: nat)
    requires NoDupStops(stops) && i < |stops| && j < |stops| && stops[i].id == stops[j].id
    ensures i == j
  {
  }

  lemma DistinctStops(b: Book)
    requires WF(b)
    ensures NoDupStops(b.stops)
  {
  }

  /** The exact condition under which executing a pending stop fails: a
      market-type stop that carries a limit price. */
  lemma RunStopFailsIff(b: Book, s: Stop, now: nat)
    requires WF(b) && s in b.stops
    ensures RunStop(b, s, now).error.Some? <==> s.typ != StopLimit && s.price.Some?
    ensures RunStop(b, s, now).error.Some? ==> RunStop(b, s, now).error.value == PricedMarketOrder
  {
    ListedStop(b, s);
  }

  lemma RunStopKeepsWF(b: Book, s: Stop, now: nat)
    requires WF(b) && s in b.stops
    ensures var c := RunStop(b, s, now);
            && WF(c.book)
            && c.book.stops == WithoutStop(b.stops, s.id)
            && c.book.last == b.last && c.book.symbol == b.symbol && c.book.sequence == b.sequence
  {
    hide WF, Taken, LiveQueue, Submit;
    WFSane(b);
    ListedStop(b, s);
    WithoutStopKeeps(b, s.id);
    var b' := b.(stops := WithoutStop(b.stops, s.id));
    match NewOrder(b.symbol, TriggeredType(s), StopInput(s, now))
    case Err(_) =>
    case Ok(o) =>
      SubmitKeepsWF(b', o);
      SubmitFrame(b', o);
  }

  /** Stops waiting to be run in this cycle: all pending, no id twice. */
  predicate Waiting(b: Book, el: seq<Stop>) {
    (forall i :: 0 <= i < |el| ==> el[i] in b.stops) && NoDupStops(el)
  }

  lemma WaitingTail(b: Book, el: seq<Stop>, now: nat)
    requires WF(b) && Waiting(b, el) && el != []
    ensures Waiting(RunStop(b, el[0], now).book, el[1..])
  {
    RunStopKeepsWF(b, el[0], now);
    WithoutStopParts(b.stops, el[0].id, b.symbol, b.last.Some?);
    forall i | 0 <= i < |el[1..]|
      ensures el[1..][i] in WithoutStop(b.stops, el[0].id)
    {
      assert el[0].id != el[i + 1].id;
    }
  }

  lemma {:induction false} RunStopsKeepsWF(b: Book, el: seq<Stop>, clock: Clock)
    requires WF(b) && Waiting(b, el)
    ensures var c := RunStops(b, el, clock);
            && WF(c.book) && c.book.last == b.last && c.book.symbol == b.symbol && c.book.sequence == b.sequence
            && |c.book.stops| <= |b.stops|
            && (c.error.None? ==> |c.book.stops| == |b.stops| - |el|)
    decreases |el|
  {
    if el != [] {
      var now := clock(el[0].id);
      RunStopKeepsWF(b, el[0], now);
      ListedStop(b, el[0]);
      WithoutStopParts(b.stops, el[0].id, b.symbol, b.last.Some?);
      WaitingTail(b, el, now);
      hide WF, Waiting;
      var c := RunStop(b, el[0], now);
      if c.error.None? {
        RunStopsKeepsWF(c.book, el[1..], clock);
      }
    }
  }

  lemma MarkKeepsWF(b: Book, price: int)
    requires WF(b)
    ensures WF(Mark(b, price))
  {
    var stops := TrailAll(b.stops, price);
    forall i | 0 <= i < |stops|
      ensures stops[i].id == b.stops[i].id && StopOk(stops[i], b.symbol)
    {
      assert StopOk(b.stops[i], b.symbol);
    }
    assert StopsOk(stops, b.symbol, true);
    assert StopIds(stops) == StopIds(b.stops);
    hide SideOk, StopsOk, Ids, StopIds;
  }

  lemma {:induction false} EligibleDistinct(stops: seq<Stop>, last: int)
    requires NoDupStops(stops)
    ensures NoDupStops(EligibleStops(stops, last))
  {
    if stops != [] {
      var el := EligibleStops(stops[1..], last);
      EligibleDistinct(stops[1..], last);
      forall i | 0 <= i < |el|
        ensures el[i].id != stops[0].id
      {
        var j :| 0 <= j < |stops[1..]| && stops[1..][j] == el[i];
        assert stops[0].id != stops[j + 1].id;
      }
    }
  }

  lemma EligibleWaiting(b: Book, last: int)
    requires WF(b)
    ensures Waiting(b, EligibleStops(b.stops, last))
  {
    EligibleDistinct(b.stops, last);
  }

  lemma CycleKeepsWF(b: Book, price: int, clock: Clock)
    requires WF(b)
    ensures var c := Cycle(b, price, clock);
            && WF(c.book) && c.book.last == Some(price)
            && c.book.symbol == b.symbol && c.book.sequence == b.sequence
            && |c.book.stops| <= |b.stops|
            && (c.error.None? ==>
                  |c.book.stops| == |b.stops| - |EligibleStops(Mark(b, price).stops, price)|)
  {
    hide WF, RunStops, EligibleStops, Waiting, LiveQueue;
    MarkKeepsWF(b, price);
    var b1 := Mark(b, price);
    EligibleWaiting(b1, price);
    RunStopsKeepsWF(b1, EligibleStops(b1.stops, price), clock);
  }

  lemma {:induction false} CyclesKeepWF(b: Book, latest: seq<Trade>, cycle: nat, clock: Clock)
    requires WF(b)
    ensures var c := Cycles(b, latest, cycle, clock);
            WF(c.book) && c.book.symbol == b.symbol && c.book.sequence == b.sequence
            && |c.book.stops| <= |b.stops|
    decreases if cycle > MAX_CYCLES then 0 else MAX_CYCLES + 1 - cycle
  {
    hide WF, Cycle, LiveQueue;
    WFSane(b);
    if latest != [] && cycle <= MAX_CYCLES {
      CycleKeepsWF(b, LastPrice(latest), clock);
      var c := Cycle(b, LastPrice(latest), clock);
      if c.error.None? {
        CyclesKeepWF(c.book, c.trades, cycle + 1, clock);
      }
    }
  }

  // --------------------------------------------------------------- commands

  lemma NewOrderIncoming(symbol: string, typ: OrderType, input: Input)
    requires typ in {Limit, Market} && NewOrder(symbol, typ, input).Ok?
    ensures var o := NewOrder(symbol, typ, input).value;
            Incoming(o) && o.symbol == symbol && o.id == input.orderId && o.typ == typ
  {
  }

  lemma PlaceKeepsWF(b: Book, typ: OrderType, input: Input, clock: Clock)
    requires WF(b) && typ in {Limit, Market}
    ensures WF(Place(b, typ, input, clock).book)
  {
    hide WF, Taken, Submit, Cycles, LiveQueue;
    WFSane(b);
    if !Taken(b, input.orderId) && NewOrder(b.symbol, typ, input).Ok? {
      var o := NewOrder(b.symbol, typ, input).value;
      SubmitKeepsWF(b, o);
      SubmitFrame(b, o);
      var r := Submit(b, o);
      CyclesKeepWF(r.book, r.trades, 1, clock);
      var c := ProcessStops(r.book, r.trades, clock);
      SequenceIsFree(c.book, Place(b, typ, input, clock).book.sequence);
    }
  }

  lemma AddStopKeepsWF(b: Book, stop: Stop)
    requires WF(b) && !Taken(b, stop.id) && StopOk(stop, b.symbol)
    requires stop.typ == TrailingStopMarket ==> b.last.Some?
    ensures WF(b.(stops := b.stops + [stop]))
  {
    TakenMeans(b, stop.id);
    var stops := b.stops + [stop];
    forall i | 0 <= i < |b.stops|
      ensures b.stops[i].id != stop.id && stops[i] == b.stops[i]
    {
      assert b.stops[i].id in StopIds(b.stops);
    }
    assert stops[|b.stops|] == stop;
    assert StopsOk(stops, b.symbol, b.last.Some?);
    assert StopIds(stops) == StopIds(b.stops) + {stop.id};
    hide SideOk, StopsOk, Ids, StopIds;
  }

  lemma SequenceIsFree(b: Book, sequence: int)
    requires WF(b)
    ensures WF(b.(sequence := sequence))
  {
    hide SideOk, StopsOk, Ids, StopIds;
  }

  lemma PlaceStopKeepsWF(b: Book, typ: OrderType, input: Input, peak: Option<int>, valley: Option<int>)
    requires WF(b) && typ in {StopMarket, StopLimit, TrailingStopMarket}
    requires typ == TrailingStopMarket && input.side.Some? ==>
               && b.last.Some? && input.trailingAmount.Some? && input.trailingAmount.value > 0 && input.trigger.Some?
               && (input.side.value == Sell ==> peak.Some? && input.trigger.value == peak.value - input.trailingAmount.value)
               && (input.side.value == Buy ==> valley.Some? && input.trigger.value == valley.value + input.trailingAmount.value)
    ensures WF(PlaceStop(b, typ, input, peak, valley).book)
  {
    var s := PlaceStop(b, typ, input, peak, valley);
    if s.outcome.Ok? {
      var stop := s.outcome.value.placed.stop;
      AddStopKeepsWF(b, stop);
      SequenceIsFree(b.(stops := b.stops + [stop]), b.sequence + 2);
      hide WF, Taken;
    }
  }

  lemma PlaceTrailingKeepsWF(b: Book, input: Input)
    requires WF(b)
    ensures WF(PlaceTrailing(b, input).book)
  {
    hide WF, PlaceStop;
    if b.last.Some? && input.trailingAmount.Some? && input.trailingAmount.value > 0 && input.side.Some? {
      var last, amount := b.last.value, input.trailingAmount.value;
      if input.side.value == Sell {
        PlaceStopKeepsWF(b, TrailingStopMarket, input.(trigger := Some(last - amount)), Some(last), None);
      } else {
        PlaceStopKeepsWF(b, TrailingStopMarket, input.(trigger := Some(last + amount)), None, Some(last));
      }
    }
  }

  lemma CancelOnSideKeepsWF(b: Book, side: Side, id: string)
    requires WF(b) && Holds(Own(b, side), id)
    ensures WF(CancelOnSide(b, side, id).book)
  {
    hide SideOk, StopsOk, Ids, StopIds, Without, LiveQueue, Sane;
    var q := Own(b, side);
    WithoutKeepsSide(q, id, side, b.symbol);
    HeadSide(q, side, b.symbol);
    HeadSide(Without(q, id), side, b.symbol);
    HeadSide(Opposite(b, side), Other(side), b.symbol);
  }

  lemma CancelKeepsWF(b: Book, id: string)
    requires WF(b)
    ensures WF(CancelById(b, id).book)
  {
    hide WF, CancelOnSide, WithoutStop;
    if HoldsStop(b.stops, id) {
      WithoutStopKeeps(b, id);
    } else if Holds(b.bids, id) {
      CancelOnSideKeepsWF(b, Buy, id);
    } else if Holds(b.asks, id) {
      CancelOnSideKeepsWF(b, Sell, id);
    }
  }

  /** Every command keeps the invariant, successful or not. */
  lemma ExecKeepsWF(b: Book, c: Command, clock: Clock)
    requires WF(b)
    ensures WF(Exec(b, c, clock).book)
  {
    hide WF, Place, PlaceStop, PlaceTrailing, CancelById;
    match c
    case PlaceLimit(input) => PlaceKeepsWF(b, Limit, input, clock);
    case PlaceMarket(input) => PlaceKeepsWF(b, Market, input, clock);
    case PlaceStopMarket(input) => PlaceStopKeepsWF(b, StopMarket, input, None, None);
    case PlaceStopLimit(input) => PlaceStopKeepsWF(b, StopLimit, input, None, None);
    case PlaceTrailingStopMarket(input) => PlaceTrailingKeepsWF(b, input);
    case Cancel(id) => CancelKeepsWF(b, id);
    case Malformed =>
    case Unsupported =>
  }
}
