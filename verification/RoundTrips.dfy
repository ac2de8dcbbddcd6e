/** Cancelling undoes placing, but for the sequence numbers used. */
module RoundTrips {
  import opened Types
  import opened Matching
  import opened BookSpec
  import opened Invariant
  import opened StopCascade

  lemma {:induction false} IndexAppend(a: seq<Order>, b: seq<Order>, id: string)
    requires id !in Ids(a)
    ensures IndexOf(a + b, id) == |a| + IndexOf(b, id)
  {
    if a == [] {
      assert a + b == b;
    } else {
      assert (a + b)[0] == a[0] && (a + b)[1..] == a[1..] + b;
      assert a[0].id in Ids(a);
      assert forall i :: 0 <= i < |a[1..]| ==> a[1..][i] == a[i + 1];
      IndexAppend(a[1..], b, id);
    }
  }

  lemma IndexInserted(q: seq<Order>, o: Order)
    requires o.id !in Ids(q)
    ensures IndexOf(Insert(q, o), o.id) == Slot(q, o)
  {
    var k := Slot(q, o);
    forall id | id in Ids(q[..k])
      ensures id in Ids(q)
    {
      var i :| 0 <= i < k && q[..k][i].id == id;
      assert q[i].id == id;
    }
    assert Insert(q, o) == q[..k] + ([o] + q[k..]);
    IndexAppend(q[..k], [o] + q[k..], o.id);
  }

  lemma WithoutInsert(q: seq<Order>, o: Order)
    requires o.id !in Ids(q)
    ensures Holds(Insert(q, o), o.id) && Insert(q, o)[IndexOf(Insert(q, o), o.id)] == o
    ensures Without(Insert(q, o), o.id) == q
  {
    hide Ids, Slot, IndexOf;
    var k := Slot(q, o);
    IndexInserted(q, o);
    assert Insert(q, o)[..k] + Insert(q, o)[k + 1..] == q;
  }

  lemma NoTradesNoChange(o: Order, q: seq<Order>)
    requires Incoming(o) && LiveQueue(q) && o.typ == Limit
    requires Match(o, q, false).trades == []
    ensures Match(o, q, false) == Matched(o, q, [])
  {
  }

  /** A submitted limit order that does not trade is inserted, and nothing else happens. */
  lemma SubmitWithoutTrades(b: Book, o: Order)
    requires Sane(b) && Incoming(o) && o.typ == Limit && o.remaining > 0 && Submit(b, o).trades == []
    ensures Submit(b, o).book == SetQueues(b, o.side, Insert(Own(b, o.side), o), Opposite(b, o.side))
    ensures Submit(b, o).order == o
  {
    hide Match, Insert;
    NoTradesNoChange(o, Opposite(b, o.side));
    assert b.trades + [] == b.trades;
  }

  lemma PlaceWithoutTrades(b: Book, input: Input, clock: Clock)
    requires WF(b)
    requires var s := Place(b, Limit, input, clock); s.outcome.Ok? && s.outcome.value.trades == []
    ensures NewOrder(b.symbol, Limit, input).Ok?
    ensures var o := NewOrder(b.symbol, Limit, input).value;
            && !Taken(b, o.id) && Live(o)
            && Place(b, Limit, input, clock).book
               == SetQueues(b, o.side, Insert(Own(b, o.side), o), Opposite(b, o.side)).(sequence := b.sequence + 4)
  {
    hide WF, Taken, Insert, Match, LiveQueue, Cycles;
    WFSane(b);
    var o := NewOrder(b.symbol, Limit, input).value;
    var r := Submit(b, o);
    assert r.trades == [];
    SubmitWithoutTrades(b, o);
    NoCycles(r.book, 1, clock);
  }

  /** Placing a limit order that makes no trade and then cancelling it restores
      both sides, the stops, the last price and the history; only the sequence
      has advanced, by six.  The cancelled order is the one placed, untraded. */
  lemma PlaceThenCancel(b: Book, input: Input, k: Clock, l: Clock)
    requires WF(b)
    requires var s := Place(b, Limit, input, k); s.outcome.Ok? && s.outcome.value.trades == []
    ensures var s := Exec(b, PlaceLimit(input), k);
            var t := Exec(s.book, Cancel(input.orderId), l);
            && t.book == b.(sequence := b.sequence + 6)
            && t.outcome.Ok?
            && t.outcome.value.placed
               == OrderPlaced(NewOrder(b.symbol, Limit, input).value.(status := Cancelled))
  {
    hide WF, Place, CancelById, LiveQueue, Insert;
    WFSane(b);
    PlaceWithoutTrades(b, input, k);
    var o := NewOrder(b.symbol, Limit, input).value;
    CancelJustInserted(b, o, Place(b, Limit, input, k).book);
  }

  lemma CancelJustInserted(b: Book, o: Order, b': Book)
    requires Sane(b) && Sane(b') && !Taken(b, o.id)
    requires b' == SetQueues(b, o.side, Insert(Own(b, o.side), o), Opposite(b, o.side)).(sequence := b.sequence + 4)
    ensures var t := CancelById(b', o.id);
            && t.book == b.(sequence := b.sequence + 6)
            && t.outcome.Ok? && t.outcome.value.placed == OrderPlaced(o.(status := Cancelled))
  {
    hide Insert, LiveQueue;
    HoldsIffIn(Own(b, o.side), o.id);
    WithoutInsert(Own(b, o.side), o);
  }

  lemma {:induction false} StopIndexAppend(a: seq<Stop>, b: seq<Stop>, id: string)
    requires !HoldsStop(a, id)
    ensures StopIndex(a + b, id) == |a| + StopIndex(b, id)
  {
    if a == [] {
      assert a + b == b;
    } else {
      assert (a + b)[0] == a[0] && (a + b)[1..] == a[1..] + b;
      StopIndexAppend(a[1..], b, id);
    }
  }

  /** Placing a stop and then cancelling it restores the book; the sequence has
      advanced by two, as the events of a cancelled stop are not stamped. */
  lemma PlaceStopThenCancel(b: Book, typ: OrderType, input: Input, peak: Option<int>, valley: Option<int>)
    requires WF(b) && PlaceStop(b, typ, input, peak, valley).outcome.Ok?
    ensures var s := PlaceStop(b, typ, input, peak, valley);
            var t := CancelById(s.book, input.orderId);
            && t.book == b.(sequence := b.sequence + 2)
            && t.outcome.Ok? && s.outcome.value.placed.StopPlaced?
            && t.outcome.value.placed == StopPlaced(s.outcome.value.placed.stop.(status := Cancelled))
  {
    var s := PlaceStop(b, typ, input, peak, valley);
    var stop := s.outcome.value.placed.stop;
    StopIndexAppend(b.stops, [stop], stop.id);
    assert s.book.stops[..|b.stops|] + s.book.stops[|b.stops| + 1..] == b.stops;
  }

  /** The same for trailing stops, whose trigger comes from the last price. */
  lemma PlaceTrailingThenCancel(b: Book, input: Input)
    requires WF(b) && PlaceTrailing(b, input).outcome.Ok?
    ensures CancelById(PlaceTrailing(b, input).book, input.orderId).book == b.(sequence := b.sequence + 2)
  {
    hide WF, PlaceStop, CancelById;
    WFSane(b);
    var last, amount := b.last.value, input.trailingAmount.value;
    if input.side.value == Sell {
      PlaceStopThenCancel(b, TrailingStopMarket, input.(trigger := Some(last - amount)), Some(last), None);
    } else {
      PlaceStopThenCancel(b, TrailingStopMarket, input.(trigger := Some(last + amount)), None, Some(last));
    }
  }
}
