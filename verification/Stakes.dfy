/** What an id has at stake: its resting order or its pending stop.  Over an
    accepted order and the cascade it sets off, what an id deals is what it had
    at stake before, less what it has after and what was dropped from it. */
module Stakes {
  import opened Types
  import opened Matching
  import opened BookSpec
  import opened Invariant
  import opened StopCascade
  import opened Accounting

  function RestingStake(b: Book, id: string, side: Side): int {
    var o := Resting(b, id);
    if o.Some? && o.value.side == side then o.value.remaining else 0
  }

  function PendingStake(stops: seq<Stop>, id: string, side: Side): int {
    if HoldsStop(stops, id) && stops[StopIndex(stops, id)].side == side then stops[StopIndex(stops, id)].remaining else 0
  }

  function Stake(b: Book, id: string, side: Side): int {
    RestingStake(b, id, side) + PendingStake(b.stops, id, side)
  }

  /** What the book could not fill of market orders of this id. */
  function Unfilled(fills: seq<Order>, id: string, side: Side): int {
    if fills == [] then 0
    else (if fills[0].id == id && fills[0].side == side && fills[0].typ == Market then fills[0].remaining else 0)
         + Unfilled(fills[1..], id, side)
  }

  /** On both sides, what the id dealt is what it lost. */
  predicate Settled(b: Book, b': Book, ts: seq<Trade>, fills: seq<Order>, id: string) {
    forall side: Side :: Dealt(ts, side, id) == Stake(b, id, side) - Stake(b', id, side) - Unfilled(fills, id, side)
  }

  lemma {:induction false} UnfilledAppend(a: seq<Order>, b: seq<Order>, id: string, side: Side)
    ensures Unfilled(a + b, id, side) == Unfilled(a, id, side) + Unfilled(b, id, side)
  {
    if a == [] {
      assert a + b == b;
    } else {
      assert (a + b)[0] == a[0] && (a + b)[1..] == a[1..] + b;
      UnfilledAppend(a[1..], b, id, side);
    }
  }

  lemma SettledThen(a: Book, m: Book, z: Book, ts: seq<Trade>, us: seq<Trade>, fs: seq<Order>, gs: seq<Order>, id: string)
    requires Settled(a, m, ts, fs, id) && Settled(m, z, us, gs, id)
    ensures Settled(a, z, ts + us, fs + gs, id)
  {
    hide Stake;
    forall side: Side
      ensures Dealt(ts + us, side, id) == Stake(a, id, side) - Stake(z, id, side) - Unfilled(fs + gs, id, side)
    {
      DealtAppend(ts, us, side, id);
      UnfilledAppend(fs, gs, id, side);
    }
  }

  lemma NothingSettled(b: Book, id: string)
    ensures Settled(b, b, [], [], id)
  {
  }

  // ----------------------------------------------------------------- one stop

  lemma HoldsWithout(stops: seq<Stop>, gone: string, id: string)
    requires NoDupStops(stops)
    ensures HoldsStop(WithoutStop(stops, gone), id) <==> HoldsStop(stops, id) && id != gone
  {
    hide StopIndex;
    var k, w := StopIndex(stops, gone), WithoutStop(stops, gone);
    assert forall i :: 0 <= i < |w| ==> w[i] == stops[if i < k then i else i + 1];
    if HoldsStop(stops, id) && id != gone {
      var i := StopIndex(stops, id);
      assert w[if i < k then i else i - 1].id == id;
    }
    if HoldsStop(w, id) && k < |stops| {
      var i := StopIndex(w, id);
      assert i < k ==> stops[i].id != stops[k].id;
      assert i >= k ==> stops[k].id != stops[i + 1].id;
    }
  }

  lemma PendingWithout(stops: seq<Stop>, gone: string, id: string, side: Side)
    requires NoDupStops(stops)
    ensures PendingStake(WithoutStop(stops, gone), id, side) == if id == gone then 0 else PendingStake(stops, id, side)
  {
    hide StopIndex;
    HoldsWithout(stops, gone, id);
    var k, w := StopIndex(stops, gone), WithoutStop(stops, gone);
    if HoldsStop(w, id) {
      var i := StopIndex(w, id);
      DistinctIndex(stops, if i < k then i else i + 1, StopIndex(stops, id));
    }
  }

  /** Another id: only its resting order can be hit. */
  lemma OtherSettled(b: Book, s: Stop, now: nat, id: string)
    requires WF(b) && s in b.stops && RunStop(b, s, now).error.None? && id != s.id
    ensures var c := RunStop(b, s, now); Settled(b, c.book, c.trades, c.fills, id)
  {
    hide WF, RunStop, Resting, Dealt, NoSelfTrade, WithoutStop, PendingStake;
    WFSane(b);
    var c := RunStop(b, s, now);
    RunStopAccounts(b, s, now, id);
    RunStopKeepsWF(b, s, now);
    FillOf(b, s, now);
    DistinctStops(b);
    forall side: Side
      ensures Dealt(c.trades, side, id) == Stake(b, id, side) - Stake(c.book, id, side) - Unfilled(c.fills, id, side)
    {
      PendingWithout(b.stops, s.id, id, side);
      assert Unfilled(c.fills[1..], id, side) == 0;
    }
  }

  /** The order that a pending stop becomes. */
  lemma FillOf(b: Book, s: Stop, now: nat)
    requires WF(b) && s in b.stops && RunStop(b, s, now).error.None?
    ensures var c := RunStop(b, s, now); |c.fills| == 1 && c.fills[0].id == s.id
  {
    hide WF, Submit, RunStop, WithoutStop, Taken, Dealt, NoSelfTrade;
    var o := RunStopSubmits(b, s, now);
    SubmitAccountsOwn(b.(stops := WithoutStop(b.stops, s.id)), o);
  }

  /** The stop's own id: what it had pending is dealt, rests, or is dropped. */
  lemma OwnSettled(b: Book, s: Stop, now: nat)
    requires WF(b) && s in b.stops && RunStop(b, s, now).error.None?
    ensures var c := RunStop(b, s, now); Settled(b, c.book, c.trades, c.fills, s.id)
  {
    hide WF, Submit, RunStop, WithoutStop, Taken, Find, Dealt, StopIndex, NoSelfTrade;
    WFSane(b);
    var o := RunStopSubmits(b, s, now);
    var b' := b.(stops := WithoutStop(b.stops, s.id));
    WFSane(b');
    var r, c := Submit(b', o), RunStop(b, s, now);
    SubmitAccountsOwn(b', o);
    SubmitFrame(b', o);
    SubmittedStatus(b', o);
    SubmitBounds(b', o);
    PendingIs(b, s);
    DistinctStops(b);
    forall side: Side
      ensures Dealt(c.trades, side, s.id) == Stake(b, s.id, side) - Stake(c.book, s.id, side) - Unfilled(c.fills, s.id, side)
    {
      PendingWithout(b.stops, s.id, s.id, side);
      assert Unfilled(c.fills[1..], s.id, side) == 0;
    }
  }

  lemma PendingIs(b: Book, s: Stop)
    requires WF(b) && s in b.stops
    ensures Resting(b, s.id).None?
    ensures forall side: Side :: PendingStake(b.stops, s.id, side) == if side == s.side then s.remaining else 0
  {
    hide WF, StopIndex;
    NothingRests(b, s);
    ListedStop(b, s);
  }

  lemma NothingRests(b: Book, s: Stop)
    requires WF(b) && s in b.stops
    ensures Resting(b, s.id).None?
  {
    hide LiveQueue, Sorted, NoDup, Find;
    FindIsHolds(b.bids, s.id);
    FindIsHolds(b.asks, s.id);
    StopIdIn(b.stops, s);
  }

  /** A submitted order is live exactly if it is a limit order with something left. */
  lemma SubmittedStatus(b: Book, o: Order)
    requires Sane(b) && Incoming(o)
    ensures Live(Submit(b, o).order) <==> o.typ == Limit && Submit(b, o).order.remaining > 0
  {
    hide Match, Insert, LiveQueue;
  }

  lemma RunStopSettled(b: Book, s: Stop, now: nat, id: string)
    requires WF(b) && s in b.stops && RunStop(b, s, now).error.None?
    ensures var c := RunStop(b, s, now); Settled(b, c.book, c.trades, c.fills, id)
  {
    hide WF, RunStop, Settled;
    if id == s.id {
      OwnSettled(b, s, now);
    } else {
      OtherSettled(b, s, now, id);
    }
  }

  // -------------------------------------------------------------- the cascade

  lemma {:induction false} RunStopsSettled(b: Book, el: seq<Stop>, clock: Clock, id: string)
    requires WF(b) && Waiting(b, el) && RunStops(b, el, clock).error.None?
    ensures var c := RunStops(b, el, clock); Settled(b, c.book, c.trades, c.fills, id)
    decreases |el|
  {
    hide WF, Waiting, RunStop, RunStops, Sane, Settled;
    WFSane(b);
    if el == [] {
      NoStops(b, clock);
      NothingSettled(b, id);
    } else {
      RunStopsParts(b, el, clock);
      var c := RunStop(b, el[0], clock(el[0].id));
      var d := RunStops(c.book, el[1..], clock);
      RunStopSettled(b, el[0], clock(el[0].id), id);
      RunStopsSettled(c.book, el[1..], clock, id);
      SettledThen(b, c.book, d.book, c.trades, d.trades, c.fills, d.fills, id);
    }
  }

  lemma MarkStake(b: Book, price: int, id: string, side: Side)
    ensures Stake(Mark(b, price), id, side) == Stake(b, id, side)
  {
    hide Find, StopIndex, TrailAll, Trail;
    MarkIndex(b.stops, price, id);
    if HoldsStop(b.stops, id) {
      TrailKeepsQuantity(b.stops[StopIndex(b.stops, id)], price);
    }
  }

  lemma TrailKeepsQuantity(s: Stop, price: int)
    ensures Trail(s, price).side == s.side && Trail(s, price).remaining == s.remaining
  {
  }

  lemma CycleSettled(b: Book, price: int, clock: Clock, id: string)
    requires WF(b) && Cycle(b, price, clock).error.None?
    ensures var c := Cycle(b, price, clock); Settled(b, c.book, c.trades, c.fills, id)
  {
    hide WF, Waiting, RunStops, Sane, EligibleStops, Mark, Stake;
    WFSane(b);
    MarkKeepsWF(b, price);
    var b1 := Mark(b, price);
    EligibleWaiting(b1, price);
    CycleParts(b, price, clock);
    RunStopsSettled(b1, EligibleStops(b1.stops, price), clock, id);
    forall side: Side
      ensures Stake(b1, id, side) == Stake(b, id, side)
    {
      MarkStake(b, price, id, side);
    }
  }

  lemma {:induction false} CascadeSettled(b: Book, latest: seq<Trade>, cycle: nat, clock: Clock, id: string)
    requires WF(b) && Cycles(b, latest, cycle, clock).error.None?
    ensures var c := Cycles(b, latest, cycle, clock); Settled(b, c.book, c.trades, c.fills, id)
    decreases if cycle > MAX_CYCLES then 0 else MAX_CYCLES + 1 - cycle
  {
    hide WF, Cycle, Cycles, Sane, Settled;
    WFSane(b);
    if latest == [] {
      NoCycles(b, cycle, clock);
      NothingSettled(b, id);
    } else {
      CyclesParts(b, latest, cycle, clock);
      var c := Cycle(b, LastPrice(latest), clock);
      var d := Cycles(c.book, c.trades, cycle + 1, clock);
      CycleSettled(b, LastPrice(latest), clock, id);
      CascadeSettled(c.book, c.trades, cycle + 1, clock, id);
      SettledThen(b, c.book, d.book, c.trades, d.trades, c.fills, d.fills, id);
    }
  }

  /** Every id other than the placed one, whether it rests, waits or is not there: what it bought or sold in the
      returned trades is what it had at stake before, less what it has after and what was dropped from it. */
  lemma PlaceSettles(b: Book, typ: OrderType, input: Input, clock: Clock, id: string)
    requires WF(b) && typ in {Limit, Market} && Place(b, typ, input, clock).outcome.Ok? && id != input.orderId
    ensures var s := Place(b, typ, input, clock);
            Settled(b, s.book, s.outcome.value.trades, s.outcome.value.fills, id)
  {
    hide WF, Taken, Submit, Cycles, LiveQueue, Stake, NoSelfTrade;
    WFSane(b);
    var o := NewOrder(b.symbol, typ, input).value;
    SubmitKeepsWF(b, o);
    SubmitFrame(b, o);
    SubmittedSettles(b, o, id);
    var r := Submit(b, o);
    var c := Cycles(r.book, r.trades, 1, clock);
    CascadeSettled(r.book, r.trades, 1, clock, id);
    SettledThen(b, r.book, c.book, r.trades, c.trades, [r.order], c.fills, id);
    NumberedStake(c.book, Place(b, typ, input, clock).book, id);
  }

  lemma NumberedStake(b: Book, b': Book, id: string)
    requires b'.bids == b.bids && b'.asks == b.asks && b'.stops == b.stops
    ensures forall side: Side :: Stake(b', id, side) == Stake(b, id, side)
  {
  }

  lemma SubmittedSettles(b: Book, o: Order, id: string)
    requires WF(b) && Submittable(b, o) && id != o.id && o.remaining == o.initial
    ensures var r := Submit(b, o); Settled(b, r.book, r.trades, [r.order], id)
  {
    hide WF, Submit, Taken, Resting, Dealt, NoSelfTrade, Find;
    WFSane(b);
    SubmitAccountsOthers(b, o, id);
    SubmitAccountsOwn(b, o);
    SubmitFrame(b, o);
    var r := Submit(b, o);
    forall side: Side
      ensures Dealt(r.trades, side, id) == Stake(b, id, side) - Stake(r.book, id, side) - Unfilled([r.order], id, side)
    {
      assert Unfilled([r.order][1..], id, side) == 0;
    }
  }
}
