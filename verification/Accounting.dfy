/** Fill accounting: what an order bought or sold in all trades is exactly what
    it lost, through matching and through the whole cascade; a buyer sells
    nothing and a seller buys nothing, and nothing trades with itself. */
module Accounting {
  import opened Types
  import opened Matching
  import opened BookSpec
  import opened Invariant
  import opened StopCascade

  /** The buyer or the seller of a trade. */
  function Party(t: Trade, side: Side): string {
    if side == Buy then t.buyId else t.sellId
  }

  /** The quantity that an id bought, or sold. */
  function Dealt(ts: seq<Trade>, side: Side, id: string): int {
    if ts == [] then 0 else (if Party(ts[0], side) == id then ts[0].quantity else 0) + Dealt(ts[1..], side, id)
  }

  predicate NoSelfTrade(ts: seq<Trade>) {
    forall t :: t in ts ==> t.buyId != t.sellId
  }

  function Find(q: seq<Order>, id: string): Option<Order> {
    if q == [] then None else if q[0].id == id then Some(q[0]) else Find(q[1..], id)
  }

  function Resting(b: Book, id: string): Option<Order> {
    if Find(b.bids, id).Some? then Find(b.bids, id) else Find(b.asks, id)
  }

  function LeftOver(o: Option<Order>): int {
    if o.Some? then o.value.remaining else 0
  }

  /** The order found later is the one found before, only with less to trade. */
  predicate Continues(before: Option<Order>, after: Option<Order>) {
    after.Some? ==> before.Some? && SameOrder(before.value, after.value)
  }

  /** `id` bought or sold, whichever its order is for, exactly what it lost, and did not do the other. */
  predicate Accounted(before: Option<Order>, after: Option<Order>, ts: seq<Trade>, id: string) {
    && Continues(before, after)
    && forall side: Side :: Dealt(ts, side, id)
         == if before.Some? && before.value.side == side then before.value.remaining - LeftOver(after) else 0
  }

  // ---------------------------------------------------------------- look-up

  lemma {:induction false} DealtAppend(a: seq<Trade>, b: seq<Trade>, side: Side, id: string)
    ensures Dealt(a + b, side, id) == Dealt(a, side, id) + Dealt(b, side, id)
  {
    if a == [] {
      assert a + b == b;
    } else {
      assert (a + b)[0] == a[0] && (a + b)[1..] == a[1..] + b;
      DealtAppend(a[1..], b, side, id);
    }
  }

  lemma DealtOne(t: Trade, side: Side, id: string)
    ensures Dealt([t], side, id) == if Party(t, side) == id then t.quantity else 0
  {
    assert Dealt([t][1..], side, id) == 0;
  }

  lemma {:induction false} FindAppend(a: seq<Order>, b: seq<Order>, id: string)
    ensures Find(a + b, id) == if Find(a, id).Some? then Find(a, id) else Find(b, id)
  {
    if a == [] {
      assert a + b == b;
    } else {
      assert (a + b)[0] == a[0] && (a + b)[1..] == a[1..] + b;
      FindAppend(a[1..], b, id);
    }
  }

  lemma {:induction false} FindIsHolds(q: seq<Order>, id: string)
    ensures Find(q, id) == if Holds(q, id) then Some(q[IndexOf(q, id)]) else None
    ensures Find(q, id).Some? <==> id in Ids(q)
  {
    HoldsIffIn(q, id);
    if q != [] && q[0].id != id {
      FindIsHolds(q[1..], id);
    }
  }

  lemma FindInsert(q: seq<Order>, o: Order, id: string)
    requires o.id !in Ids(q)
    ensures Find(Insert(q, o), id) == if id == o.id then Some(o) else Find(q, id)
  {
    var k := Slot(q, o);
    FindAppend(q[..k] + [o], q[k..], id);
    FindAppend(q[..k], [o], id);
    FindAppend(q[..k], q[k..], id);
    assert q[..k] + q[k..] == q;
    FindIsHolds(q, o.id);
    assert Find([o], id) == if o.id == id then Some(o) else Find([o][1..], id);
  }

  // --------------------------------------------------------------- matching

  /** What one trade at the head of the queue does to an order. */
  lemma HitAccounts(inc: Order, q: seq<Order>, n: int, id: string)
    requires q != [] && NoDup(q) && id != inc.id && Live(q[0]) && q[0].side != inc.side && 0 < n <= q[0].remaining
    ensures NoDup(AfterHit(q, n))
    ensures Accounted(Find(q, id), Find(AfterHit(q, n), id), [TradeOf(inc, q[0], n)], id)
  {
    var t := TradeOf(inc, q[0], n);
    DealtOne(t, Buy, id);
    DealtOne(t, Sell, id);
    if n == q[0].remaining {
      OthersAfter(q);
      if id == q[0].id {
        NotFound(q[1..], id);
      }
    } else {
      assert AfterHit(q, n)[1..] == q[1..];
    }
  }

  lemma OthersAfter(q: seq<Order>)
    requires q != [] && NoDup(q)
    ensures NoDup(q[1..]) && forall i :: 0 <= i < |q[1..]| ==> q[1..][i].id != q[0].id
  {
  }

  lemma AccountedThen(before: Option<Order>, middle: Option<Order>, after: Option<Order>,
                      ts: seq<Trade>, us: seq<Trade>, id: string)
    requires Accounted(before, middle, ts, id) && Accounted(middle, after, us, id)
    ensures Accounted(before, after, ts + us, id)
    ensures NoSelfTrade(ts) && NoSelfTrade(us) ==> NoSelfTrade(ts + us)
  {
    DealtAppend(ts, us, Buy, id);
    DealtAppend(ts, us, Sell, id);
  }

  lemma {:induction false} MatchAccounts(inc: Order, q: seq<Order>, ignorePrice: bool, id: string)
    requires Incoming(inc) && LiveQueue(q) && NoDup(q) && id != inc.id
    requires forall i :: 0 <= i < |q| ==> q[i].side != inc.side
    requires !ignorePrice ==> inc.price.Some?
    ensures var m := Match(inc, q, ignorePrice);
            Accounted(Find(q, id), Find(m.queue, id), m.trades, id)
    decreases inc.remaining
  {
    hide Find, NoDup;
    AccountedNothing(Find(q, id), id);
    if !Stops(inc, q, ignorePrice) {
      var n := Min(inc.remaining, q[0].remaining);
      var inc', q' := FilledBy(inc, n), AfterHit(q, n);
      MatchStep(inc, q, ignorePrice);
      HitAccounts(inc, q, n, id);
      MatchAccounts(inc', q', ignorePrice, id);
      AccountedThen(Find(q, id), Find(q', id), Find(Match(inc', q', ignorePrice).queue, id),
                    [TradeOf(inc, q[0], n)], Match(inc', q', ignorePrice).trades, id);
    }
  }

  lemma {:induction false} NotFound(q: seq<Order>, id: string)
    requires forall i :: 0 <= i < |q| ==> q[i].id != id
    ensures Find(q, id).None?
  {
    FindIsHolds(q, id);
  }

  /** The incoming order deals on its own side, for what it lost, and on the other side not at all. */
  lemma {:induction false} MatchDeals(inc: Order, q: seq<Order>, ignorePrice: bool)
    requires Incoming(inc) && LiveQueue(q) && inc.id !in Ids(q)
    requires !ignorePrice ==> inc.price.Some?
    ensures var m := Match(inc, q, ignorePrice);
            && Dealt(m.trades, inc.side, inc.id) == inc.remaining - m.incoming.remaining
            && Dealt(m.trades, Other(inc.side), inc.id) == 0
            && NoSelfTrade(m.trades)
    decreases |q|
  {
    if !Stops(inc, q, ignorePrice) {
      FillsNeverFail(inc, q, ignorePrice);
      var n := Min(inc.remaining, q[0].remaining);
      var m := Match(inc, q, ignorePrice);
      assert q[0].id in Ids(q);
      if n == q[0].remaining {
        assert forall i :: 0 <= i < |q[1..]| ==> q[1..][i] == q[i + 1];
        MatchDeals(FilledBy(inc, n), q[1..], ignorePrice);
        assert m.trades[1..] == Match(FilledBy(inc, n), q[1..], ignorePrice).trades;
      } else {
        assert m.trades[1..] == [];
      }
    }
  }

  // ----------------------------------------------------------------- submit

  lemma RestingApart(b: Book, id: string)
    requires WF(b)
    ensures Find(b.bids, id).None? || Find(b.asks, id).None?
  {
    FindIsHolds(b.bids, id);
    FindIsHolds(b.asks, id);
  }

  lemma SubmitAccountsOthers(b: Book, o: Order, id: string)
    requires WF(b) && Submittable(b, o) && id != o.id
    ensures var r := Submit(b, o); Accounted(Resting(b, id), Resting(r.book, id), r.trades, id)
  {
    hide Match, Insert, LiveQueue, Find, Dealt, Sorted, Ids, StopIds, StopsOk;
    var q := Opposite(b, o.side);
    var m := Match(o, q, o.typ != Limit);
    MatchAccounts(o, q, o.typ != Limit, id);
    TakenMeans(b, o.id);
    RestingApart(b, id);
    FindInsert(Own(b, o.side), m.incoming, id);
  }

  /** What a submitted order lost; afterwards it rests exactly if it is live. */
  lemma SubmitAccountsOwn(b: Book, o: Order)
    requires WF(b) && Submittable(b, o) && o.remaining == o.initial
    ensures var r := Submit(b, o);
            && SameOrder(o, r.order)
            && Dealt(r.trades, o.side, o.id) == o.initial - r.order.remaining
            && Dealt(r.trades, Other(o.side), o.id) == 0
            && NoSelfTrade(r.trades)
            && Find(Own(r.book, o.side), o.id) == (if Live(r.order) then Some(r.order) else None)
            && Find(Opposite(r.book, o.side), o.id).None?
  {
    hide Match, Insert, LiveQueue, Find, Dealt, Sorted, StopIds, StopsOk, Ids;
    var q := Opposite(b, o.side);
    var m := Match(o, q, o.typ != Limit);
    TakenMeans(b, o.id);
    MatchDeals(o, q, o.typ != Limit);
    MatchLeavesEnd(o, q, o.typ != Limit);
    EndKeepsSide(q, m.queue, Other(o.side), b.symbol);
    FindIsHolds(m.queue, o.id);
    FindIsHolds(Own(b, o.side), o.id);
    FindInsert(Own(b, o.side), m.incoming, o.id);
  }

  // ---------------------------------------------------------------- cascade

  lemma RunStopAccounts(b: Book, s: Stop, now: nat, id: string)
    requires WF(b) && s in b.stops && id != s.id
    ensures var c := RunStop(b, s, now);
            && Accounted(Resting(b, id), Resting(c.book, id), c.trades, id)
            && NoSelfTrade(c.trades)
  {
    hide WF, Submit, WithoutStop, LiveQueue, Find, Dealt, Taken;
    WFSane(b);
    ListedStop(b, s);
    WithoutStopKeeps(b, s.id);
    AccountedNothing(Resting(b, id), id);
    var b' := b.(stops := WithoutStop(b.stops, s.id));
    match NewOrder(b.symbol, TriggeredType(s), StopInput(s, now))
    case Err(_) =>
    case Ok(o) =>
      SubmitAccountsOthers(b', o, id);
      SubmitAccountsOwn(b', o);
  }

  lemma {:induction false} RunStopsAccount(b: Book, el: seq<Stop>, clock: Clock, id: string)
    requires WF(b) && Waiting(b, el) && id !in StopIds(b.stops)
    ensures var c := RunStops(b, el, clock);
            && Accounted(Resting(b, id), Resting(c.book, id), c.trades, id)
            && NoSelfTrade(c.trades)
            && id !in StopIds(c.book.stops)
    decreases |el|
  {
    hide WF, Waiting, RunStop, Resting, Dealt, StopIds, NoSelfTrade, Accounted;
    WFSane(b);
    AccountedNothing(Resting(b, id), id);
    if el != [] {
      var now := clock(el[0].id);
      HeadIsPending(b, el);
      StopIdIn(b.stops, el[0]);
      RunStopKeepsWF(b, el[0], now);
      WaitingTail(b, el, now);
      WithoutIds(b, el[0].id);
      var c := RunStop(b, el[0], now);
      RunStopAccounts(b, el[0], now, id);
      if c.error.None? {
        RunStopsAccount(c.book, el[1..], clock, id);
        var d := RunStops(c.book, el[1..], clock);
        AccountedThen(Resting(b, id), Resting(c.book, id), Resting(d.book, id), c.trades, d.trades, id);
      }
    }
  }

  lemma WithoutIds(b: Book, id: string)
    requires WF(b)
    ensures StopIds(WithoutStop(b.stops, id)) == StopIds(b.stops) - {id}
  {
    WithoutStopParts(b.stops, id, b.symbol, b.last.Some?);
  }

  lemma AccountedNothing(o: Option<Order>, id: string)
    ensures Accounted(o, o, [], id) && NoSelfTrade([])
  {
  }

  lemma StopIdIn(stops: seq<Stop>, s: Stop)
    requires s in stops
    ensures s.id in StopIds(stops)
  {
  }

  lemma MarkIds(b: Book, price: int)
    ensures StopIds(Mark(b, price).stops) == StopIds(b.stops)
  {
    var r := TrailAll(b.stops, price);
    assert forall i :: 0 <= i < |r| ==> r[i].id == b.stops[i].id;
  }

  lemma CycleAccounts(b: Book, price: int, clock: Clock, id: string)
    requires WF(b) && id !in StopIds(b.stops)
    ensures var c := Cycle(b, price, clock);
            && Accounted(Resting(b, id), Resting(c.book, id), c.trades, id)
            && NoSelfTrade(c.trades)
            && id !in StopIds(c.book.stops)
  {
    hide WF, Waiting, RunStops, EligibleStops, StopIds, NoSelfTrade, Accounted;
    WFSane(b);
    MarkKeepsWF(b, price);
    MarkIds(b, price);
    var b1 := Mark(b, price);
    EligibleWaiting(b1, price);
    RunStopsAccount(b1, EligibleStops(b1.stops, price), clock, id);
    CycleParts(b, price, clock);
  }

  lemma {:induction false} CyclesAccount(b: Book, latest: seq<Trade>, cycle: nat, clock: Clock, id: string)
    requires WF(b) && id !in StopIds(b.stops)
    ensures var c := Cycles(b, latest, cycle, clock);
            && Accounted(Resting(b, id), Resting(c.book, id), c.trades, id)
            && NoSelfTrade(c.trades)
            && id !in StopIds(c.book.stops)
    decreases if cycle > MAX_CYCLES then 0 else MAX_CYCLES + 1 - cycle
  {
    hide WF, Cycle, Resting, StopIds, NoSelfTrade, Accounted;
    WFSane(b);
    AccountedNothing(Resting(b, id), id);
    if latest != [] && cycle <= MAX_CYCLES {
      var price := LastPrice(latest);
      CycleKeepsWF(b, price, clock);
      CycleAccounts(b, price, clock, id);
      var c := Cycle(b, price, clock);
      if c.error.None? {
        CyclesAccount(c.book, c.trades, cycle + 1, clock, id);
        var d := Cycles(c.book, c.trades, cycle + 1, clock);
        AccountedThen(Resting(b, id), Resting(c.book, id), Resting(d.book, id), c.trades, d.trades, id);
      }
    }
  }

  // --------------------------------------------------------------- commands

  /** The returned order is the submitted one, and what it bought (or sold) in the returned
      trades is what it lost, whether it was the aggressor or was hit while resting by the
      stops it triggered; it sold (or bought) nothing.  No trade has one order on both sides. */
  lemma PlaceAccounts(b: Book, typ: OrderType, input: Input, clock: Clock)
    requires WF(b) && typ in {Limit, Market} && Place(b, typ, input, clock).outcome.Ok?
    ensures var r := Place(b, typ, input, clock).outcome.value;
            && r.placed.OrderPlaced?
            && SameOrder(NewOrder(b.symbol, typ, input).value, r.placed.order)
            && 0 <= r.placed.order.remaining <= r.placed.order.initial
            && input.side == Some(r.placed.order.side)
            && Dealt(r.trades, r.placed.order.side, input.orderId) == r.placed.order.initial - r.placed.order.remaining
            && Dealt(r.trades, Other(r.placed.order.side), input.orderId) == 0
            && NoSelfTrade(r.trades)
  {
    hide WF, Taken, Submit, Cycles, LiveQueue, StopIds, Dealt, NoSelfTrade, Find;
    WFSane(b);
    var o := NewOrder(b.symbol, typ, input).value;
    TakenMeans(b, o.id);
    SubmitKeepsWF(b, o);
    SubmitFrame(b, o);
    SubmitAccountsOwn(b, o);
    SubmitBounds(b, o);
    var r := Submit(b, o);
    CyclesKeepWF(r.book, r.trades, 1, clock);
    CyclesAccount(r.book, r.trades, 1, clock, o.id);
    var c := Cycles(r.book, r.trades, 1, clock);
    TwoParts(r.trades, c.trades, o.id);
    FinalIsResting(r.book, c.book, r.order);
  }

  /** Every other order that was resting lost exactly what the returned trades
      took from it, and nothing else appears in the book but triggered stops. */
  lemma PlaceAccountsOthers(b: Book, typ: OrderType, input: Input, clock: Clock, id: string)
    requires WF(b) && typ in {Limit, Market} && Place(b, typ, input, clock).outcome.Ok?
    requires id != input.orderId && id !in StopIds(b.stops)
    ensures var s := Place(b, typ, input, clock);
            Accounted(Resting(b, id), Resting(s.book, id), s.outcome.value.trades, id)
  {
    hide WF, Taken, Submit, Cycles, LiveQueue, StopIds, Dealt, NoSelfTrade, Find, Accounted;
    WFSane(b);
    var o := NewOrder(b.symbol, typ, input).value;
    SubmitKeepsWF(b, o);
    SubmitFrame(b, o);
    SubmitAccountsOwn(b, o);
    SubmitAccountsOthers(b, o, id);
    var r := Submit(b, o);
    CyclesAccount(r.book, r.trades, 1, clock, id);
    var c := Cycles(r.book, r.trades, 1, clock);
    AccountedThen(Resting(b, id), Resting(r.book, id), Resting(c.book, id), r.trades, c.trades, id);
  }

  lemma SubmitBounds(b: Book, o: Order)
    requires Sane(b) && Incoming(o)
    ensures 0 <= Submit(b, o).order.remaining <= o.initial
  {
    hide Match, Insert, LiveQueue;
  }

  lemma TwoParts(ts: seq<Trade>, us: seq<Trade>, id: string)
    requires NoSelfTrade(ts) && NoSelfTrade(us)
    ensures forall side: Side :: Dealt(ts + us, side, id) == Dealt(ts, side, id) + Dealt(us, side, id)
    ensures NoSelfTrade(ts + us)
  {
    DealtAppend(ts, us, Buy, id);
    DealtAppend(ts, us, Sell, id);
  }

  /** The returned order, in terms of what rests before and after the cascade. */
  lemma FinalIsResting(b: Book, b': Book, o: Order)
    requires WF(b) && WF(b')
    requires Find(Own(b, o.side), o.id) == (if Live(o) then Some(o) else None)
    requires Find(Opposite(b, o.side), o.id).None?
    requires Continues(Resting(b, o.id), Resting(b', o.id))
    ensures SameOrder(o, FinalOrder(b', o))
    ensures Live(o) ==> FinalOrder(b', o).remaining == LeftOver(Resting(b', o.id))
    ensures !Live(o) ==> FinalOrder(b', o) == o && Resting(b, o.id).None?
    ensures 0 <= o.remaining <= o.initial ==> 0 <= FinalOrder(b', o).remaining <= o.initial
  {
    hide Sorted, NoDup, StopsOk, StopIds, Find, Ids;
    FindIsHolds(Own(b', o.side), o.id);
    FindIsHolds(Opposite(b', o.side), o.id);
    RestingApart(b', o.id);
    if Live(o) && Resting(b', o.id).Some? {
      FoundSide(b', o);
    }
  }

  lemma FoundSide(b: Book, o: Order)
    requires WF(b) && Resting(b, o.id).Some? && Resting(b, o.id).value.side == o.side
    ensures Find(Own(b, o.side), o.id) == Resting(b, o.id)
    ensures Live(Resting(b, o.id).value)
  {
    FindIsHolds(b.bids, o.id);
    FindIsHolds(b.asks, o.id);
  }
}
