/** The worker's book as a heap object, proved to do what `BookSpec` says. */
module GoBook {
  import opened Types
  import opened Matching
  import opened BookSpec
  import opened Invariant
  import opened GoOrders
  import opened GoLevels
  import opened GoSide
  import opened GoStops
  import opened GoResults

  /** What a filled order looks like once it has left the book. */
  ghost predicate Done(o: OrderRef)
    reads o
  {
    o.remaining == 0 && o.status == Filled
  }

  ghost predicate AllDone(s: seq<OrderRef>)
    reads s
  {
    forall i :: 0 <= i < |s| ==> Done(s[i])
  }

  lemma StopsEmpty(inc: Order, v: seq<Order>, ignorePrice: bool)
    requires !ignorePrice ==> inc.price.Some?
    ensures !Stops(inc, v, ignorePrice) ==> v != [] && inc.remaining > 0
  {
  }

  lemma NoneDone()
    ensures AllDone([])
  {
  }

  lemma AllDoneAppend(s: seq<OrderRef>, o: OrderRef)
    requires AllDone(s) && Done(o)
    ensures AllDone(s + [o])
  {
  }

  lemma SplitDistinct(gone: seq<OrderRef>, q: seq<OrderRef>)
    ensures DistinctRefs(gone + q) ==> forall i, j :: 0 <= i < |gone| && 0 <= j < |q| ==> gone[i] != q[j]
    ensures q != [] ==> gone + q == (gone + [q[0]]) + q[1..]
    ensures forall i :: 0 <= i < |q| ==> q[i] in gone + q
  {
    var q0 := gone + q;
    forall i, j | 0 <= i < |gone| && 0 <= j < |q|
      ensures DistinctRefs(q0) ==> gone[i] != q[j]
    {
      assert q0[i] == gone[i] && q0[|gone| + j] == q[j];
    }
    forall i | 0 <= i < |q|
      ensures q[i] in q0
    {
      assert q0[|gone| + i] == q[i];
    }
  }

  /** What placing a trailing stop computes: a trigger at the trailing amount from the extreme of its side. */
  predicate Extremes(input: Input, peak: Option<int>, valley: Option<int>)
    requires input.side.Some?
  {
    && input.trailingAmount.Some? && input.trailingAmount.value > 0 && input.trigger.Some?
    && (input.side.value == Sell ==> peak.Some? && input.trigger.value == peak.value - input.trailingAmount.value)
    && (input.side.value == Buy ==> valley.Some? && input.trigger.value == valley.value + input.trailingAmount.value)
  }

  class EngineBook {
    const symbol: string
    const bids: BookSide
    const asks: BookSide
    var orders: map<string, OrderRef>
    var stopOrders: map<string, Stop>
    var stopOrderIDs: seq<string>
    var trades: seq<Trade>
    var last: Option<int>
    var sequence: int

    /** Levels, queues and index fit together. */
    ghost predicate Linked()
      reads this, bids, bids.queue, bids.LevelSet(), asks, asks.queue, asks.LevelSet()
    {
      && bids.side == Buy && asks.side == Sell
      && bids.Linked() && asks.Linked()
      && Indexed(orders, bids.queue, asks.queue)
    }

    ghost predicate StopsLinked()
      reads this
    {
      Listed(stopOrderIDs, stopOrders)
    }

    /** The book as a value. */
    ghost function State(): Book
      requires StopsLinked()
      reads this, bids, bids.queue, asks, asks.queue
    {
      Book(symbol, bids.View(), asks.View(), StopsIn(stopOrderIDs, stopOrders), last, trades, sequence)
    }

    ghost predicate Valid()
      reads this, bids, bids.queue, bids.LevelSet(), asks, asks.queue, asks.LevelSet()
    {
      Linked() && StopsLinked() && WF(State())
    }

    constructor (symbol: string)
      requires !Blank(symbol)
      ensures Valid() && State() == EmptyBook(symbol)
      ensures fresh(bids) && fresh(asks) && this.symbol == symbol && Footprint() == {bids, asks}
    {
      this.symbol := symbol;
      bids := new BookSide(Buy);
      asks := new BookSide(Sell);
      orders, stopOrders, stopOrderIDs, trades, last, sequence := map[], map[], [], [], None, 0;
      new;
      EmptyBookWF(symbol);
    }

    // -------------------------------------------------------------- matching

    /** Take the filled order at the head off its level, and forget its id. */
    method Retire(side: BookSide, ghost other: seq<OrderRef>, level: PriceLevel, o: OrderRef)
      requires side.Linked() && Indexed(orders, side.queue, other) && side.queue != [] && o == side.queue[0]
      requires forall i :: 0 <= i < |other| ==> other[i].side != side.side
      requires RefPx(o) in side.levels && level == side.levels[RefPx(o)]
      modifies `orders, side, level
      ensures side.Linked() && side.LevelSet() <= old(side.LevelSet()) && Indexed(orders, side.queue, other)
      ensures side.queue == old(side.queue)[1..] && side.View() == old(side.View())[1..]
    {
      hide Sum, RefsAt, Views, Indexed, SideLinked, WithoutRef, BookSide.View;
      side.HeadListed();
      side.DistinctIds();
      WithoutSteps(side.queue, o);
      IndexedWithout(orders, side.queue, other, o);
      ghost var v := side.View();
      side.Unlink(level, o);
      orders := orders - {o.id};
      assert side.View() == v[1..];
    }

    /** One turn of the matching loop: trade with the order at the head of the opposite side. */
    method TradeOnce(side: BookSide, ghost other: seq<OrderRef>, incoming: OrderRef, price: int)
      returns (trade: Trade, ghost popped: bool)
      requires side.Linked() && Indexed(orders, side.queue, other)
      requires (forall i :: 0 <= i < |other| ==> other[i].side != side.side)
      requires incoming.side != side.side && incoming !in side.queue
      requires Incoming(incoming.View()) && incoming.remaining > 0
      requires side.queue != [] && Live(side.queue[0].View()) && price == RefPx(side.queue[0])
      modifies `orders, `trades, side, side.LevelSet(), side.queue, incoming
      ensures side.Linked() && side.LevelSet() <= old(side.LevelSet()) && Indexed(orders, side.queue, other)
      ensures trade == TradeOf(old(incoming.View()), old(side.queue[0].View()),
                               Min(old(incoming.remaining), old(side.queue[0].remaining)))
      ensures trades == old(trades) + [trade]
      ensures incoming.View() == FilledBy(old(incoming.View()), trade.quantity)
      ensures popped <==> trade.quantity == old(side.queue[0].remaining)
      ensures side.queue == if popped then old(side.queue)[1..] else old(side.queue)
      ensures popped ==> side.View() == old(side.View())[1..] && Done(old(side.queue)[0])
      ensures !popped ==> side.View() == [FilledBy(old(side.queue[0].View()), trade.quantity)] + old(side.View())[1..]
    {
      hide Sum, RefsAt, Views, Indexed, SideLinked, WithoutRef, BookSide.View;
      side.HeadListed();
      side.DistinctIds();
      var level := side.levels[price];
      var resting := level.orders[0];
      var quantity := incoming.remaining;
      if resting.remaining < quantity {
        quantity := resting.remaining;
      }
      trade := if incoming.side == Buy
      then Trade(incoming.symbol, RefPx(resting), quantity, incoming.id, resting.id, Buy, incoming.timestamp)
      else Trade(incoming.symbol, RefPx(resting), quantity, resting.id, incoming.id, Sell, incoming.timestamp);
      side.Cross(incoming, level, resting, quantity);
      trades := trades + [trade];
      popped := resting.status == Filled;
      if resting.status == Filled {
        Retire(side, other, level, resting);
      }
    }
 
    ghost function OppositeSide(side: Side): BookSide {
      if side == Buy then asks else bids
    }

    ghost function OwnSide(side: Side): BookSide {
      if side == Buy then bids else asks
    }

    /** One turn, in terms of what the rest of the loop has to do. */
    method Turn(side: BookSide, ghost other: seq<OrderRef>, incoming: OrderRef, price: int, ghost ignorePrice: bool)
      returns (trade: Trade, ghost popped: bool)
      requires side.Linked() && Indexed(orders, side.queue, other)
      requires (forall i :: 0 <= i < |other| ==> other[i].side != side.side)
      requires incoming.side != side.side && incoming !in side.queue
      requires Incoming(incoming.View()) && LiveQueue(side.View()) && Sorted(side.View())
      requires !ignorePrice ==> incoming.price.Some?
      requires !Stops(incoming.View(), side.View(), ignorePrice) && price == RefPx(side.queue[0])
      modifies `orders, `trades, side, side.LevelSet(), side.queue, incoming
      ensures side.Linked() && side.LevelSet() <= old(side.LevelSet()) && Indexed(orders, side.queue, other)
      ensures Incoming(incoming.View()) && LiveQueue(side.View()) && Sorted(side.View())
      ensures Matching.Match(old(incoming.View()), old(side.View()), ignorePrice)
              == Prepend([trade], Matching.Match(incoming.View(), side.View(), ignorePrice))
      ensures trades == old(trades) + [trade]
      ensures side.queue == if popped then old(side.queue)[1..] else old(side.queue)
      ensures if popped then Done(old(side.queue)[0]) else incoming.remaining == 0
    {
      hide Sum, RefsAt, Views, Indexed, SideLinked, BookSide.View, LiveQueue, Sorted, Matching.Match, Incoming;
      ghost var inc, v, q := incoming.View(), side.View(), side.queue;
      ghost var n := Min(inc.remaining, v[0].remaining);
      MatchStep(inc, v, ignorePrice);
      AfterHitSorted(v, n);
      HeadIsLive(v);
      assert v[0] == q[0].View();
      trade, popped := TradeOnce(side, other, incoming, price);
      assert incoming.View() == FilledBy(inc, n) && trade == TradeOf(inc, v[0], n);
      assert side.View() == AfterHit(v, n);
    }

    /** A side, the index and an incoming order between two turns of the loop. */
    ghost predicate Ready(side: BookSide, other: seq<OrderRef>, incoming: OrderRef, ignorePrice: bool)
      reads this, side, side.queue, side.LevelSet(), incoming
    {
      && side.Linked() && Indexed(orders, side.queue, other)
      && (forall i :: 0 <= i < |other| ==> other[i].side != side.side)
      && side.side == Other(incoming.side)
      && Incoming(incoming.View()) && LiveQueue(side.View()) && Sorted(side.View())
      && (!ignorePrice ==> incoming.price.Some?)
    }

    /** What the loop will do from here. */
    ghost function Outlook(side: BookSide, other: seq<OrderRef>, incoming: OrderRef, ignorePrice: bool): Matched
      requires Ready(side, other, incoming, ignorePrice)
      reads this, side, side.queue, side.LevelSet(), incoming
    {
      Matching.Match(incoming.View(), side.View(), ignorePrice)
    }

    /** Is there an order to trade with, and at what price? If not, the loop is over. */
    method Acceptable(side: BookSide, ghost other: seq<OrderRef>, incoming: OrderRef, ignorePrice: bool)
      returns (price: int, go: bool)
      requires Ready(side, other, incoming, ignorePrice) && incoming.remaining > 0
      ensures go <==> !Stops(incoming.View(), side.View(), ignorePrice)
      ensures go ==> side.queue != [] && price == RefPx(side.queue[0])
    {
      hide Sum, RefsAt, Views, SideLinked, BookSide.View, Sorted, LiveQueue, Indexed;
      price, go := side.Best(incoming.side == Buy);
      if !go {
        return;
      }
      assert side.View()[0] == side.queue[0].View();
      if !ignorePrice && ((incoming.side == Buy && price > incoming.price.value)
                          || (incoming.side == Sell && price < incoming.price.value)) {
        go := false;
      }
    }

    /** One turn, with the orders that have left the queue so far. */
    method TurnOn(side: BookSide, ghost other: seq<OrderRef>, incoming: OrderRef, price: int, ghost ignorePrice: bool,
                  ghost gone: seq<OrderRef>)
      returns (trade: Trade, ghost gone': seq<OrderRef>)
      requires Ready(side, other, incoming, ignorePrice) && incoming !in gone + side.queue
      requires !Stops(incoming.View(), side.View(), ignorePrice) && price == RefPx(side.queue[0])
      requires AllDone(gone) && DistinctRefs(gone + side.queue)
      modifies `orders, `trades, side, side.LevelSet(), side.queue, incoming
      ensures Ready(side, other, incoming, ignorePrice) && side.LevelSet() <= old(side.LevelSet())
      ensures old(Outlook(side, other, incoming, ignorePrice))
              == Prepend([trade], Outlook(side, other, incoming, ignorePrice))
      ensures trades == old(trades) + [trade]
      ensures gone' + side.queue == old(gone + side.queue) && AllDone(gone')
      ensures |side.queue| + (if incoming.remaining > 0 then 1 else 0) <= old(|side.queue|)
    {
      hide Sum, RefsAt, Views, Indexed, SideLinked, BookSide.View, LiveQueue, Sorted, Matching.Match, Incoming, AllDone,
           DistinctRefs, Stops;
      ghost var popped;
      ghost var q := side.queue;
      SplitDistinct(gone, q);
      StopsEmpty(incoming.View(), side.View(), ignorePrice);
      trade, popped := Turn(side, other, incoming, price, ignorePrice);
      assert AllDone(gone);
      gone' := gone;
      if popped {
        AllDoneAppend(gone, q[0]);
        gone' := gone + [q[0]];
      }
    }

    lemma ReadyDistinct(side: BookSide, other: seq<OrderRef>, incoming: OrderRef, ignorePrice: bool)
      requires Ready(side, other, incoming, ignorePrice)
      ensures DistinctRefs(side.queue)
    {
      side.Distinct();
    }

    lemma OutlookStopped(side: BookSide, other: seq<OrderRef>, incoming: OrderRef, ignorePrice: bool, ts: seq<Trade>)
      requires Ready(side, other, incoming, ignorePrice)
      requires incoming.remaining <= 0 || Stops(incoming.View(), side.View(), ignorePrice)
      ensures Prepend(ts, Outlook(side, other, incoming, ignorePrice)) == Matched(incoming.View(), side.View(), ts)
    {
      hide Sum, RefsAt, Views, Indexed, SideLinked, BookSide.View, LiveQueue, Sorted;
      MatchStopped(incoming.View(), side.View(), ignorePrice, ts);
    }

    /** The matching loop, against one side. */
    method MatchSide(side: BookSide, ghost other: seq<OrderRef>, incoming: OrderRef, ignorePrice: bool)
      returns (ts: seq<Trade>, ghost gone: seq<OrderRef>)
      requires Ready(side, other, incoming, ignorePrice) && incoming !in side.queue
      modifies `orders, `trades, incoming, side, side.LevelSet(), side.queue
      ensures Ready(side, other, incoming, ignorePrice) && side.LevelSet() <= old(side.LevelSet())
      ensures old(Outlook(side, other, incoming, ignorePrice)) == Matched(incoming.View(), side.View(), ts)
      ensures trades == old(trades) + ts
      ensures old(side.queue) == gone + side.queue && AllDone(gone)
    {
      hide Ready, Outlook, AllDone, DistinctRefs, Prepend, Stops, BookSide.View, BookSide.Linked;
      ghost var m0, q0 := Outlook(side, other, incoming, ignorePrice), side.queue;
      ReadyDistinct(side, other, incoming, ignorePrice);
      NoneDone();
      ts, gone := [], [];
      PrependNothing(m0);
      while incoming.remaining > 0
        invariant Ready(side, other, incoming, ignorePrice) && side.LevelSet() <= old(side.LevelSet())
        invariant q0 == gone + side.queue && AllDone(gone)
        invariant m0 == Prepend(ts, Outlook(side, other, incoming, ignorePrice))
        invariant trades == old(trades) + ts
        decreases |side.queue| + (if incoming.remaining > 0 then 1 else 0)
      {
        var price, go := Acceptable(side, other, incoming, ignorePrice);
        if !go {
          break;
        }
        SplitDistinct(gone, side.queue);
        var trade;
        trade, gone := TurnOn(side, other, incoming, price, ignorePrice, gone);
        PrependOne(ts, trade, Outlook(side, other, incoming, ignorePrice));
        ts := ts + [trade];
      }
      OutlookStopped(side, other, incoming, ignorePrice, ts);
    }

    /** Match an incoming order against the opposite side of the book. */
    method Match(incoming: OrderRef, ignorePrice: bool) returns (ts: seq<Trade>, ghost gone: seq<OrderRef>)
      requires Linked() && incoming !in bids.queue && incoming !in asks.queue
      requires Incoming(incoming.View()) && (!ignorePrice ==> incoming.price.Some?)
      requires LiveQueue(OppositeSide(incoming.side).View()) && Sorted(OppositeSide(incoming.side).View())
      modifies `orders, `trades, incoming, OppositeSide(incoming.side), OppositeSide(incoming.side).LevelSet(),
               OppositeSide(incoming.side).queue
      ensures Linked()
      ensures OppositeSide(incoming.side).LevelSet() <= old(OppositeSide(incoming.side).LevelSet())
      ensures Matching.Match(old(incoming.View()), old(OppositeSide(incoming.side).View()), ignorePrice)
              == Matched(incoming.View(), OppositeSide(incoming.side).View(), ts)
      ensures OwnSide(incoming.side).queue == old(OwnSide(incoming.side).queue)
      ensures OwnSide(incoming.side).View() == old(OwnSide(incoming.side).View())
      ensures trades == old(trades) + ts
      ensures old(OppositeSide(incoming.side).queue) == gone + OppositeSide(incoming.side).queue && AllDone(gone)
    {
      hide Sum, RefsAt, Views, Indexed, SideLinked, BookSide.View, LiveQueue, Sorted, Matching.Match, Incoming;
      ghost var own := OwnSide(incoming.side);
      IndexedSymmetric(orders, bids.queue, asks.queue);
      SidesApart();
      QueueSide(own);
      ts, gone := MatchSide(if incoming.side == Buy then asks else bids, own.queue, incoming, ignorePrice);
      assert own.Linked();
      IndexedSymmetric(orders, bids.queue, asks.queue);
    }

    /** The two sides share no level and no order. */
    lemma SidesApart()
      requires Linked()
      ensures bids != asks && bids.LevelSet() !! asks.LevelSet()
      ensures forall i, j :: 0 <= i < |bids.queue| && 0 <= j < |asks.queue| ==> bids.queue[i] != asks.queue[j]
    {
      hide RefsAt, Views, Sum, Indexed;
      forall p, r | p in bids.levels && r in asks.levels
        ensures bids.levels[p] != asks.levels[r]
      {
        assert LevelLinked(bids.levels[p], bids.queue, p, Buy) && LevelLinked(asks.levels[r], asks.queue, r, Sell);
      }
    }

    lemma QueueSide(s: BookSide)
      requires s.Linked()
      ensures forall i :: 0 <= i < |s.queue| ==> s.queue[i].side == s.side
    {
    }

    // ---------------------------------------------------------------- resting

    /** Rest an order on its own side and index it. */
    method RestOrder(o: OrderRef)
      requires Linked() && Sorted(OwnSide(o.side).View()) && o.id !in orders
      modifies `orders, OwnSide(o.side), OwnSide(o.side).LevelSet()
      ensures Linked()
      ensures forall l :: l in OwnSide(o.side).LevelSet() ==> l in old(OwnSide(o.side).LevelSet()) || fresh(l)
      ensures OwnSide(o.side).View() == Insert(old(OwnSide(o.side).View()), o.View())
      ensures OppositeSide(o.side).View() == old(OppositeSide(o.side).View())
      ensures OppositeSide(o.side).queue == old(OppositeSide(o.side).queue)
      ensures forall r :: r in OwnSide(o.side).queue <==> r in old(OwnSide(o.side).queue) || r == o
    {
      hide Sum, RefsAt, Views, Indexed, SideLinked, BookSide.View, Sorted, Insert, InsertRef, Slot;
      var side := if o.side == Buy then bids else asks;
      ghost var other := OppositeSide(o.side);
      ghost var q, k := side.queue, Slot(side.View(), o.View());
      SidesApart();
      IndexedSymmetric(orders, bids.queue, asks.queue);
      NewToQueue(orders, q, other.queue, o.id);
      side.DistinctIds();
      side.Rest(o);
      InsertMembers(q, k, o);
      IndexedInsert(orders, q, other.queue, k, o);
      orders := orders[o.id := o];
      assert other.Linked();
    }

    // --------------------------------------------------------------- submitting

    /** The orders that rest in the book. */
    ghost function Members(): set<OrderRef>
      reads this, bids, asks
    {
      (set o | o in bids.queue) + (set o | o in asks.queue)
    }

    /** The index knows exactly the ids of the resting orders. */
    lemma IndexMeans(id: string)
      requires Linked()
      ensures id in orders <==> id in Ids(bids.View()) + Ids(asks.View())
    {
      hide Sum, RefsAt, SideLinked;
      if id in orders {
        if orders[id] in bids.queue {
          var i :| 0 <= i < |bids.queue| && bids.queue[i] == orders[id];
          assert bids.View()[i].id == id;
        } else {
          var i :| 0 <= i < |asks.queue| && asks.queue[i] == orders[id];
          assert asks.View()[i].id == id;
        }
      }
    }

    lemma SidesOk()
      requires Valid()
      ensures LiveQueue(bids.View()) && Sorted(bids.View()) && LiveQueue(asks.View()) && Sorted(asks.View())
    {
    }

    lemma NewAfterMatch(b: Book, o: Order)
      requires WF(b) && Submittable(b, o)
      ensures o.id !in Ids(Matching.Match(o, Opposite(b, o.side), o.typ != Limit).queue) + Ids(Own(b, o.side))
    {
      hide SideOk, StopsOk, Ids, StopIds, Matching.Match, LiveQueue;
      OppositeAfterMatch(b, o);
      TakenMeans(b, o.id);
    }

    /** Orders that left the queue of a side are done. */
    lemma LeftAreDone(q0: seq<OrderRef>, gone: seq<OrderRef>, q: seq<OrderRef>)
      requires q0 == gone + q && AllDone(gone)
      ensures forall r :: r in q ==> r in q0
      ensures forall r :: r in q0 && r !in q ==> Done(r)
    {
      forall i | 0 <= i < |q0|
        ensures q0[i] in q || Done(q0[i])
      {
        if i < |gone| {
          assert q0[i] == gone[i];
        } else {
          assert q0[i] == q[i - |gone|];
        }
      }
    }

    /** Matching, as a change of the book's value. */
    method MatchBook(o: OrderRef) returns (ts: seq<Trade>)
      requires Linked() && StopsLinked() && o !in Members() && Incoming(o.View())
      requires LiveQueue(OppositeSide(o.side).View()) && Sorted(OppositeSide(o.side).View())
      modifies `orders, `trades, o, OppositeSide(o.side), OppositeSide(o.side).LevelSet(), OppositeSide(o.side).queue
      ensures Linked() && StopsLinked()
      ensures bids.LevelSet() <= old(bids.LevelSet()) && asks.LevelSet() <= old(asks.LevelSet())
      ensures var m := Matching.Match(old(o.View()), old(OppositeSide(o.side).View()), o.typ != Limit);
              && o.View() == m.incoming && ts == m.trades
              && State() == SetQueues(old(State()), o.side, Own(old(State()), o.side), m.queue).(trades := old(State()).trades + ts)
      ensures Members() <= old(Members())
      ensures forall r :: r in old(Members()) && r !in Members() ==> Done(r)
    {
      hide Sum, RefsAt, Views, Indexed, SideLinked, BookSide.View, BookSide.Linked, LiveQueue, Sorted, Matching.Match, AllDone;
      ghost var q0 := OppositeSide(o.side).queue;
      ghost var gone;
      ts, gone := Match(o, o.typ != Limit);
      LeftAreDone(q0, gone, OppositeSide(o.side).queue);
    }

    /** Resting, as a change of the book's value. */
    method RestBook(o: OrderRef)
      requires Linked() && StopsLinked() && Sorted(OwnSide(o.side).View())
      requires o.id !in Ids(bids.View()) + Ids(asks.View())
      modifies `orders, OwnSide(o.side), OwnSide(o.side).LevelSet()
      ensures Linked() && StopsLinked()
      ensures forall l :: l in OwnSide(o.side).LevelSet() ==> l in old(OwnSide(o.side).LevelSet()) || fresh(l)
      ensures State() == SetQueues(old(State()), o.side, Insert(Own(old(State()), o.side), o.View()),
                                   Opposite(old(State()), o.side))
      ensures Members() == old(Members()) + {o}
    {
      hide Sum, RefsAt, Views, Indexed, SideLinked, BookSide.View, BookSide.Linked, Sorted, Insert, Ids;
      IndexMeans(o.id);
      RestOrder(o);
    }

    /** After matching: rest what is left of a limit order, drop what is left of a market order. */
    method Dispose(o: OrderRef)
      requires Linked() && StopsLinked() && Sorted(OwnSide(o.side).View()) && Incoming(o.View())
      requires o !in Members() && o.id !in Ids(bids.View()) + Ids(asks.View())
      modifies `orders, o, OwnSide(o.side), OwnSide(o.side).LevelSet()
      ensures Linked() && StopsLinked()
      ensures forall l :: l in bids.LevelSet() ==> l in old(bids.LevelSet()) || fresh(l)
      ensures forall l :: l in asks.LevelSet() ==> l in old(asks.LevelSet()) || fresh(l)
      ensures old(o.remaining) > 0 && o.typ == Limit ==>
                && o.View() == old(o.View()) && Members() == old(Members()) + {o}
                && State() == SetQueues(old(State()), o.side, Insert(Own(old(State()), o.side), o.View()),
                                        Opposite(old(State()), o.side))
      ensures Live(o.View()) <==> o in Members()
      ensures old(o.remaining) == 0 || o.typ != Limit ==>
                && State() == old(State()) && Members() == old(Members())
                && o.View() == (if old(o.remaining) > 0 then old(o.View()).(status := Cancelled) else old(o.View()))
    {
      hide Sum, RefsAt, Views, Indexed, SideLinked, BookSide.View, Sorted, Insert, Ids;
      if o.status != Filled && o.status != Cancelled && o.remaining > 0 {
        if o.typ == Limit {
          RestBook(o);
        } else {
          assert o !in bids.queue && o !in asks.queue;
          var error := o.CancelUp();
          assert bids.Linked() && asks.Linked();
        }
      }
    }

    // ---------------------------------------------------- orders that are watched

    /** Everything on the heap that belongs to the book, apart from the book itself. */
    ghost function Footprint(): set<object>
      reads this, bids, asks
    {
      {bids, asks} + Members() + bids.LevelSet() + asks.LevelSet()
    }

    /** An order that rests here, or that rested here, was filled, and left its id free. */
    ghost predicate Tracked(w: OrderRef)
      requires StopsLinked()
      reads this, bids, bids.queue, asks, asks.queue, w
    {
      w in Members() || (Done(w) && !Taken(State(), w.id))
    }

    lemma QueuesAreMembers()
      ensures forall i :: 0 <= i < |bids.queue| ==> bids.queue[i] in Members()
      ensures forall i :: 0 <= i < |asks.queue| ==> asks.queue[i] in Members()
    {
    }

    lemma MemberIds(w: OrderRef)
      requires Linked()
      ensures w in Members() ==> w.id in Ids(bids.View()) + Ids(asks.View())
      ensures w in Members() ==> forall x :: x in Members() && x.id == w.id ==> x == w
    {
      hide Sum, RefsAt, SideLinked;
      if w in Members() {
        if w in bids.queue {
          var i :| 0 <= i < |bids.queue| && bids.queue[i] == w;
          assert bids.View()[i].id == w.id;
        } else {
          var i :| 0 <= i < |asks.queue| && asks.queue[i] == w;
          assert asks.View()[i].id == w.id;
        }
      }
    }

    lemma IdsAreMembers(id: string)
      requires Linked()
      ensures id in Ids(bids.View()) + Ids(asks.View()) ==> exists x :: x in Members() && x.id == id
    {
      hide Sum, RefsAt, SideLinked;
      if id in Ids(bids.View()) {
        var i :| 0 <= i < |bids.View()| && bids.View()[i].id == id;
        assert bids.queue[i] in Members();
      } else if id in Ids(asks.View()) {
        var i :| 0 <= i < |asks.View()| && asks.View()[i].id == id;
        assert asks.queue[i] in Members();
      }
    }

    /** Match an order, then drop what is left of a market order or rest what is left of a limit order. */
    method MatchAndDispose(o: OrderRef, ghost w: OrderRef) returns (ts: seq<Trade>)
      requires Valid() && o !in Members() && Submittable(State(), o.View())
      modifies `orders, `trades, o, bids, asks, bids.queue, asks.queue, bids.LevelSet(), asks.LevelSet()
      ensures Valid()
      ensures BookSpec.Submit(old(State()), old(o.View())) == Submitted(State(), o.View(), ts)
      ensures forall l :: l in bids.LevelSet() ==> l in old(bids.LevelSet()) || fresh(l)
      ensures forall l :: l in asks.LevelSet() ==> l in old(asks.LevelSet()) || fresh(l)
      ensures Members() <= old(Members()) + {o}
      ensures Live(o.View()) <==> o in Members()
      ensures w in old(Members()) && w !in Members() ==> Done(w)
    {
      hide Sum, RefsAt, Views, Indexed, SideLinked, BookSide.View, BookSide.Linked, LiveQueue, Sorted, Matching.Match,
           WF, Taken, Insert, Ids, Linked, Members;
      ghost var b0, inc0 := State(), o.View();
      SidesOk();
      NewAfterMatch(b0, inc0);
      SubmitKeepsWF(b0, inc0);
      ghost var before := Members();
      ts := MatchBook(o);
      ghost var middle := Members();
      assert w in before - middle ==> Done(w) && w != o;
      Dispose(o);
      assert w in before - middle ==> Done(w);
    }

    /** The same, with an eye on one order that may have rested here. */
    method Submit(o: OrderRef, ghost w: OrderRef) returns (ts: seq<Trade>)
      requires Valid() && o !in Members() && Submittable(State(), o.View())
      modifies `orders, `trades, o, Footprint()
      ensures Valid()
      ensures BookSpec.Submit(old(State()), old(o.View())) == Submitted(State(), o.View(), ts)
      ensures forall x :: x in Footprint() ==> x in old(Footprint()) || x == o || fresh(x)
      ensures Live(o.View()) <==> o in Members()
      ensures w.id != o.id && old(Tracked(w)) ==> Tracked(w)
    {
      hide Sum, RefsAt, Views, Indexed, SideLinked, BookSide.View, BookSide.Linked, LiveQueue, Sorted, Matching.Match,
           WF, Insert, Ids, StopIds, Linked, Members, Taken;
      ghost var b0, inc0 := State(), o.View();
      ghost var before, level0 := Members(), bids.LevelSet() + asks.LevelSet();
      QueuesAreMembers();
      MemberIds(w);
      SubmitTakesNoId(b0, inc0, w.id);
      ts := MatchAndDispose(o, w);
      IdsAreMembers(w.id);
    }

    // ---------------------------------------------------------------- the cascade

    /** Allocating an order changes nothing about the book. */
    method NewOrderRef(typ: OrderType, input: Input, ghost w: OrderRef?) returns (r: Result<OrderRef, Error>)
      requires Valid() && typ in {Limit, Market}
      ensures Valid() && State() == old(State()) && Footprint() == old(Footprint())
      ensures w != null && old(Tracked(w)) ==> Tracked(w)
      ensures match NewOrder(symbol, typ, input)
              case Ok(o) =>
                && r.Ok? && fresh(r.value) && r.value !in Members() && r.value.View() == o
                && (!Taken(State(), o.id) ==> Submittable(State(), o))
              case Err(e) => r == Err(e)
    {
      hide Taken, BookSide.View, WF, SideLinked, RefsAt, Views, Sum, Listed, Indexed;
      assert bids.Linked() && asks.Linked();
      r := MakeOrder(symbol, typ, input);
      if r.Ok? {
        NewOrderIncoming(symbol, typ, input);
      }
    }

    /** Make an order out of a stop that is off the list, and submit it. */
    method ExecuteStop(stop: Stop, now: nat, ghost w: OrderRef) returns (r: Result<OrderRef, Error>, ts: seq<Trade>)
      requires Valid() && !Taken(State(), stop.id)
      modifies `orders, `trades, Footprint()
      ensures Valid()
      ensures forall x :: x in Footprint() ==> x in old(Footprint()) || fresh(x)
      ensures RunStop(old(State()), stop, now)
              == match r
                 case Err(e) => AsCascade(NoResult, State(), Some(e))
                 case Ok(o) => AsCascade(Ran(stop, o.View(), ts), State(), None)
      ensures w.id != stop.id && old(Tracked(w)) ==> Tracked(w)
    {
      hide Taken, BookSide.View, BookSpec.Submit, Linked, WF, WithoutStop, LiveQueue, Members, Tracked, Incoming, Footprint;
      ghost var b0 := State();
      NotListed(b0, stop.id);
      WFSane(b0);
      r := NewOrderRef(TriggeredType(stop), StopInput(stop, now), w);
      ts := [];
      if r.Ok? {
        ts := Submit(r.value, w);
      }
    }

    /** Replace the stop list. */
    method SetStops(ids: seq<string>, stops: map<string, Stop>)
      requires Linked() && StopsLinked() && Listed(ids, stops)
      modifies `stopOrders, `stopOrderIDs
      ensures Linked() && StopsLinked() && Footprint() == old(Footprint()) && Members() == old(Members())
      ensures State() == old(State()).(stops := StopsIn(ids, stops))
    {
      hide BookSide.View, SideLinked, RefsAt, Views, Sum, Listed, Indexed, StopsIn;
      assert bids.Linked() && asks.Linked();
      stopOrderIDs, stopOrders := ids, stops;
    }

    /** Take a stop off the list. */
    method TakeOff(id: string, ghost w: OrderRef?)
      requires Valid() && HoldsStop(State().stops, id)
      modifies `stopOrders, `stopOrderIDs
      ensures Valid() && State() == old(State()).(stops := WithoutStop(old(State()).stops, id))
      ensures Footprint() == old(Footprint())
      ensures !Taken(State(), id)
      ensures w != null && old(Tracked(w)) ==> Tracked(w) && w.id != id
    {
      hide Taken, BookSide.View, WF, SideLinked, RefsAt, Views, Sum, Listed, Indexed, StopsIn, WithoutStop, StopIndex,
           HoldsStop, Footprint, Members;
      ghost var b0 := State();
      HoldsIffMapped(stopOrderIDs, stopOrders, id);
      WithoutStopKeeps(b0, id);
      FreedOrFree(b0, id, if w == null then id else w.id);
      if w != null {
        MemberIds(w);
      }
      var ids, stops := DeleteStop(stopOrderIDs, stopOrders, id);
      assert bids.Linked() && asks.Linked();
      SetStops(ids, stops);
    }

    /** Take one stop off the list and run it. */
    method RunNext(stop: Stop, now: nat, ghost w: OrderRef) returns (r: StopResult, error: Option<Error>)
      requires Valid() && stop in State().stops
      modifies `stopOrders, `stopOrderIDs, `orders, `trades, Footprint()
      ensures Valid()
      ensures forall x :: x in Footprint() ==> x in old(Footprint()) || fresh(x)
      ensures RunStop(old(State()), stop, now) == AsCascade(r, State(), error)
      ensures old(Tracked(w)) ==> Tracked(w)
    {
      hide Taken, BookSide.View, BookSpec.Submit, Linked, WF, WithoutStop, StopIndex, HoldsStop, LiveQueue, Members,
           Tracked, NewOrder, RunStop, Footprint;
      ghost var b0 := State();
      WFSane(b0);
      ListedStop(b0, stop);
      RunOnceOff(b0, stop, now);
      TakeOff(stop.id, w);
      var o, ts := ExecuteStop(stop, now, w);
      if o.Err? {
        return NoResult, Some(o.error);
      }
      return Ran(stop, o.value.View(), ts), None;
    }

    /** Gathered `r`, and with what the stops `rest` will do, `total` in the end. */
    ghost predicate Owes(total: Cascade, r: StopResult, rest: seq<Stop>, clock: Clock)
      reads this, bids, bids.queue, bids.LevelSet(), asks, asks.queue, asks.LevelSet()
    {
      && Valid() && Sane(State()) && Waiting(State(), rest)
      && total == After(r, RunStops(State(), rest, clock))
    }

    lemma OwesAll(el: seq<Stop>, clock: Clock)
      requires Valid() && Waiting(State(), el)
      ensures Sane(State()) && Owes(RunStops(State(), el, clock), NoResult, el, clock)
    {
      hide WF, RunStops, After, Linked, StopsLinked, Waiting;
      WFSane(State());
      AfterNothing(RunStops(State(), el, clock));
    }

    lemma OwesNothing(total: Cascade, r: StopResult, rest: seq<Stop>, clock: Clock)
      requires Owes(total, r, rest, clock) && rest == []
      ensures Valid() && total == AsCascade(r, State(), None)
    {
      hide WF, RunStops, After, Linked, Waiting;
      RunStopsDone(State(), rest, clock, r);
    }

    /** Run the next stop of the cycle. */
    method RunOne(ghost total: Cascade, r: StopResult, rest: seq<Stop>, clock: Clock, ghost w: OrderRef)
      returns (r': StopResult, error: Option<Error>)
      requires Owes(total, r, rest, clock) && rest != []
      modifies `stopOrders, `stopOrderIDs, `orders, `trades, Footprint()
      ensures Valid()
      ensures forall x :: x in Footprint() ==> x in old(Footprint()) || fresh(x)
      ensures if error.Some? then total == AsCascade(r', State(), error) else Owes(total, r', rest[1..], clock)
      ensures old(Tracked(w)) ==> Tracked(w)
    {
      hide Linked, WF, Sane, Footprint, Members, Tracked, Waiting, After, RunStop, RunStops, More, BookSide.View;
      ghost var b := State();
      NextIsPending(b, rest);
      var one;
      one, error := RunNext(rest[0], clock(rest[0].id), w);
      WFSane(State());
      RunStopsNext(b, rest, clock, r, one, State(), error);
      r' := More(r, one);
    }

    /** Run the stops of one cycle, one after the other, up to the first that fails. */
    method RunEligible(eligible: seq<Stop>, clock: Clock, ghost w: OrderRef) returns (r: StopResult, error: Option<Error>)
      requires Valid() && Waiting(State(), eligible)
      modifies `stopOrders, `stopOrderIDs, `orders, `trades, Footprint()
      ensures Valid() && Sane(old(State()))
      ensures forall x :: x in Footprint() ==> x in old(Footprint()) || fresh(x)
      ensures RunStops(old(State()), eligible, clock) == AsCascade(r, State(), error)
      ensures old(Tracked(w)) ==> Tracked(w)
    {
      hide Linked, WF, Sane, Owes, Members, Tracked, Waiting, RunStops, BookSide.View, Footprint;
      r, error := NoResult, None;
      OwesAll(eligible, clock);
      ghost var total := RunStops(State(), eligible, clock);
      for k := 0 to |eligible|
        invariant Valid() && Owes(total, r, eligible[k..], clock)
        invariant forall x :: x in Footprint() ==> x in old(Footprint()) || fresh(x)
        invariant error == None && (old(Tracked(w)) ==> Tracked(w))
      {
        r, error := RunOne(total, r, eligible[k..], clock, w);
        if error.Some? {
          return;
        }
        assert eligible[k..][1..] == eligible[k + 1..];
      }
      OwesNothing(total, r, eligible[|eligible|..], clock);
    }

    /** A new last price: trailing stops follow it, and these are the stops that it triggers. */
    method MarkPrice(price: int, ghost w: OrderRef) returns (eligible: seq<Stop>)
      requires Valid()
      modifies `last, `stopOrders
      ensures Valid() && State() == Mark(old(State()), price)
      ensures Footprint() == old(Footprint()) && (old(Tracked(w)) ==> Tracked(w))
      ensures eligible == EligibleStops(State().stops, price)
    {
      hide Taken, BookSide.View, SideLinked, RefsAt, Views, Sum, Listed, Indexed, SideOk, StopsOk, Sane, Uncrossed, Apart,
           Trail, EligibleStops;
      ghost var b0 := State();
      MarkKeepsWF(b0, price);
      MarkTakes(b0, price, w.id);
      AmountsAreKnown(stopOrderIDs, stopOrders, symbol, b0.last.Some?);
      last := Some(price);
      stopOrders := UpdateTrailing(stopOrderIDs, stopOrders, price);
      eligible := FindEligible(stopOrderIDs, stopOrders, price);
    }

    /** Gathered `r`, and with what the cycles from `cycle` on will do, `total` in the end. */
    ghost predicate Due(total: Cascade, r: StopResult, latest: seq<Trade>, cycle: nat, clock: Clock)
      reads this, bids, bids.queue, bids.LevelSet(), asks, asks.queue, asks.LevelSet()
    {
      && Valid() && Sane(State())
      && total == After(r, Cycles(State(), latest, cycle, clock))
    }

    lemma DueAll(latest: seq<Trade>, clock: Clock)
      requires Valid()
      ensures Sane(State()) && Due(BookSpec.ProcessStops(State(), latest, clock), NoResult, latest, 1, clock)
    {
      hide WF, Cycles, After, Linked, StopsLinked;
      WFSane(State());
      AfterNothing(Cycles(State(), latest, 1, clock));
    }

    lemma DueNothing(total: Cascade, r: StopResult, latest: seq<Trade>, cycle: nat, clock: Clock)
      requires Due(total, r, latest, cycle, clock)
      ensures latest == [] ==> total == AsCascade(r, State(), None)
      ensures latest != [] && cycle > MAX_CYCLES ==> total == AsCascade(r, State(), Some(CycleLimit))
    {
      hide WF, Cycles, After, Linked;
      if latest == [] {
        CyclesDone(State(), latest, cycle, clock, r);
      } else if cycle > MAX_CYCLES {
        CyclesExceeded(State(), latest, cycle, clock, r);
      }
    }

    /** One cycle: mark the price, find what is eligible, run it.  No eligible stop, no further trades. */
    method RunCycle(ghost total: Cascade, r: StopResult, latest: seq<Trade>, cycle: nat, clock: Clock, ghost w: OrderRef)
      returns (r': StopResult, latest': seq<Trade>, error: Option<Error>)
      requires Due(total, r, latest, cycle, clock) && latest != []
      modifies `last, `stopOrders, `stopOrderIDs, `orders, `trades, Footprint()
      ensures Valid()
      ensures forall x :: x in Footprint() ==> x in old(Footprint()) || fresh(x)
      ensures if error.Some? then total == AsCascade(r', State(), error) else Due(total, r', latest', cycle + 1, clock)
      ensures error.None? ==> cycle <= MAX_CYCLES
      ensures old(Tracked(w)) ==> Tracked(w)
    {
      hide Linked, WF, Sane, Members, Tracked, Waiting, After, RunStops, Cycles, More, BookSide.View,
           Listed, EligibleStops, Footprint;
      if cycle > MAX_CYCLES {
        DueNothing(total, r, latest, cycle, clock);
        return r, [], Some(CycleLimit);
      }
      ghost var b := State();
      var price := latest[|latest| - 1].price;
      var eligible := MarkPrice(price, w);
      EligibleWaiting(State(), price);
      var one;
      one, error := RunEligible(eligible, clock, w);
      WFSane(State());
      CyclesNext(b, latest, cycle, clock, r, one, State(), error);
      r', latest' := More(r, Marked(price, one)), one.trades;
    }

    /** The stop cascade after a command that traded. */
    method ProcessStops(initial: seq<Trade>, clock: Clock, ghost w: OrderRef) returns (r: StopResult, error: Option<Error>)
      requires Valid()
      modifies `last, `stopOrders, `stopOrderIDs, `orders, `trades, Footprint()
      ensures Valid() && Sane(old(State()))
      ensures forall x :: x in Footprint() ==> x in old(Footprint()) || fresh(x)
      ensures BookSpec.ProcessStops(old(State()), initial, clock) == AsCascade(r, State(), error)
      ensures old(Tracked(w)) ==> Tracked(w)
    {
      hide Linked, StopsLinked, WF, Sane, Due, Members, Footprint, Tracked, BookSpec.ProcessStops, BookSide.View;
      r, error := NoResult, None;
      DueAll(initial, clock);
      ghost var total, was := BookSpec.ProcessStops(State(), initial, clock), Tracked(w);
      var latest, cycle := initial, 1;
      while |latest| > 0
        invariant Valid() && Due(total, r, latest, cycle, clock)
        invariant forall x :: x in Footprint() ==> x in old(Footprint()) || fresh(x)
        invariant 1 <= cycle <= MAX_CYCLES + 1 && error == None && (was ==> Tracked(w))
        decreases MAX_CYCLES + 1 - cycle
      {
        r, latest, error := RunCycle(total, r, latest, cycle, clock, w);
        if error.Some? {
          return;
        }
        cycle := cycle + 1;
      }
      DueNothing(total, r, latest, cycle, clock);
    }

    // ---------------------------------------------------------------- commands

    /** Is the id in use? */
    method IsTaken(id: string) returns (taken: bool)
      requires Valid()
      ensures taken <==> Taken(State(), id)
      ensures Valid() && State() == old(State()) && Footprint() == old(Footprint())
    {
      hide WF, StopsIn, Listed, SideLinked, RefsAt, Views, Taken;
      TakenMeans(State(), id);
      IndexMeans(id);
      HoldsIffMapped(stopOrderIDs, stopOrders, id);
      StopHoldsIffIn(State().stops, id);
      taken := id in orders || id in stopOrders;
    }

    lemma Outside(o: OrderRef)
      requires o !in Members()
      ensures o !in Footprint()
    {
      hide Members;
    }

    /** What is left of a watched order is what the book shows of it. */
    lemma FinalIs(o: OrderRef, first: Order)
      requires Valid() && SameOrder(first, o.View())
      requires if Live(first) then Tracked(o) else o.View() == first
      ensures o.View() == FinalOrder(State(), first)
    {
      hide WF, Listed, StopsIn, RefsAt, Sum, BookSide.View, StopIndex, Live, Incoming;
      if o in Members() {
        FoundByView(o);
      }
    }

    lemma FoundByView(o: OrderRef)
      requires Linked() && o in Members()
      ensures var q := if o.side == Buy then bids.View() else asks.View();
              Holds(q, o.id) && q[IndexOf(q, o.id)] == o.View()
    {
      hide RefsAt, Sum, Holds, IndexOf;
      if o in bids.queue {
        ViewsWithout(bids.queue, o);
      } else {
        ViewsWithout(asks.queue, o);
      }
    }

    /** Number `n` events. */
    method Stamp(n: nat)
      requires Valid()
      modifies `sequence
      ensures Valid() && State() == old(State()).(sequence := old(State()).sequence + n)
      ensures Footprint() == old(Footprint())
    {
      hide WF, BookSide.View, SideLinked, RefsAt, Views, Sum, Listed, Indexed;
      SequenceIsFree(State(), sequence + n);
      assert bids.Linked() && asks.Linked();
      sequence := sequence + n;
    }

    /** Validate an order and submit it; its own trades, before any stop is triggered. */
    method Admit(typ: OrderType, input: Input) returns (r: Result<OrderRef, Error>, ts: seq<Trade>)
      requires Valid() && typ in {Limit, Market}
      modifies `orders, `trades, Footprint()
      ensures Valid()
      ensures forall x :: x in Footprint() ==> x in old(Footprint()) || fresh(x)
      ensures if Taken(old(State()), input.orderId) then r == Err(OrderExists) && State() == old(State()) else
              match NewOrder(symbol, typ, input)
              case Err(e) => r == Err(e) && State() == old(State())
              case Ok(o) =>
                && r.Ok? && o.typ == r.value.typ && Sane(old(State())) && Incoming(o) && fresh(r.value)
                && BookSpec.Submit(old(State()), o) == Submitted(State(), r.value.View(), ts)
                && (Live(r.value.View()) <==> r.value in Members())
    {
      hide Taken, BookSide.View, BookSpec.Submit, Linked, WF, LiveQueue, Members, Tracked, Incoming, Live, NewOrder, Footprint;
      WFSane(State());
      ts := [];
      var taken := IsTaken(input.orderId);
      if taken {
        return Err(OrderExists), ts;
      }
      ProducesIncoming(symbol, typ, input);
      r := NewOrderRef(typ, input, null);
      if r.Ok? {
        ts := Submit(r.value, r.value);
      }
    }

    /** The cascade that follows a submitted order, and what becomes of the order in it. */
    method Follow(o: OrderRef, ts: seq<Trade>, clock: Clock) returns (c: StopResult, error: Option<Error>)
      requires Valid() && (Live(o.View()) <==> o in Members())
      modifies `last, `stopOrders, `stopOrderIDs, `orders, `trades, Footprint()
      ensures Valid() && Sane(old(State()))
      ensures forall x :: x in Footprint() ==> x in old(Footprint()) || fresh(x)
      ensures BookSpec.ProcessStops(old(State()), ts, clock) == AsCascade(c, State(), error)
      ensures o.View() == FinalOrder(State(), old(o.View()))
    {
      hide Linked, WF, Sane, BookSpec.ProcessStops, BookSide.View, Taken, FinalOrder, Live, Members, LiveQueue, Footprint;
      ghost var first := o.View();
      if !Live(first) {
        Outside(o);
      }
      c, error := ProcessStops(ts, clock, o);
      FinalIs(o, first);
    }

    /** Validate, match, rest or drop, then run the stops. */
    method PlaceOrder(typ: OrderType, input: Input, clock: Clock) returns (r: Result<Reply, Error>)
      requires Valid() && typ in {Limit, Market}
      modifies this, Footprint()
      ensures Valid() && Sane(old(State()))
      ensures forall x :: x in Footprint() ==> x in old(Footprint()) || fresh(x)
      ensures Step(State(), r) == BookSpec.Place(old(State()), typ, input, clock)
    {
      hide Linked, WF, Sane, BookSpec.ProcessStops, BookSpec.Submit, BookSpec.Place, BookSide.View, Taken, FinalOrder,
           Incoming, Members, NewOrder, Live, LiveQueue, Answer, Footprint;
      ghost var b := State();
      WFSane(b);
      PlaceRejects(b, typ, input, clock);
      var o, ts := Admit(typ, input);
      if o.Err? {
        return Err(o.error);
      }
      ghost var b1 := State();
      WFSane(b1);
      var first := o.value.View();
      var c, error := Follow(o.value, ts, clock);
      PlaceSteps(b, typ, input, clock, Submitted(b1, first, ts), c, State(), error);
      if error.Some? {
        return Err(error.value);
      }
      var reply := Answer(typ, first, ts, c, o.value.View());
      Stamp(reply.events);
      return Ok(reply);
    }

    /** Add a stop to the list. */
    method AppendStop(stop: Stop)
      requires Valid() && stop.symbol == symbol && !Taken(State(), stop.id)
      requires StopOk(stop, symbol) && (stop.typ == TrailingStopMarket ==> last.Some?)
      modifies `stopOrders, `stopOrderIDs, `sequence
      ensures Valid() && Footprint() == old(Footprint())
      ensures var b := old(State()); State() == b.(stops := b.stops + [stop], sequence := b.sequence + 2)
    {
      hide WF, StopOk, Linked, Listed, StopsIn, Taken, Footprint, BookSide.View;
      ghost var b := State();
      AddStopKeepsWF(b, stop);
      SequenceIsFree(b.(stops := b.stops + [stop]), sequence + 2);
      TakenMeans(b, stop.id);
      StopHoldsIffIn(b.stops, stop.id);
      HoldsIffMapped(stopOrderIDs, stopOrders, stop.id);
      AddStop(stopOrderIDs, stopOrders, stop);
      SetStops(stopOrderIDs + [stop.id], stopOrders[stop.id := stop]);
      Count(2);
    }

    method PlaceStopWithExtrema(typ: OrderType, input: Input, peak: Option<int>, valley: Option<int>)
      returns (r: Result<Reply, Error>)
      requires Valid() && typ in {StopMarket, StopLimit, TrailingStopMarket}
      requires typ == TrailingStopMarket && input.side.Some? ==> last.Some? && Extremes(input, peak, valley)
      modifies `stopOrders, `stopOrderIDs, `sequence
      ensures Valid() && Sane(old(State())) && Footprint() == old(Footprint())
      ensures Step(State(), r) == BookSpec.PlaceStop(old(State()), typ, input, peak, valley)
    {
      hide Linked, WF, Sane, BookSide.View, Taken, Footprint;
      WFSane(State());
      var taken := IsTaken(input.orderId);
      if taken {
        return Err(OrderExists);
      }
      if input.orderId == "" {
        return Err(EmptyOrderId);
      }
      if input.userId == "" {
        return Err(EmptyUserId);
      }
      if input.side.None? {
        return Err(InvalidSide);
      }
      if input.trigger.None? {
        return Err(BadTrigger);
      }
      if input.quantity <= 0 {
        return Err(BadQuantity);
      }
      if typ == StopLimit && (input.price.None? || input.price.value <= 0) {
        return Err(BadPrice);
      }
      var stop := Stop(input.orderId, input.userId, symbol, input.side.value, typ, input.trigger.value,
                       input.price, input.trailingAmount, peak, valley, input.quantity, input.quantity,
                       Open, input.timestamp);
      AppendStop(stop);
      return Ok(Reply(StopPlaced(stop), [], [], [], [], 2));
    }

    method PlaceTrailingStop(input: Input) returns (r: Result<Reply, Error>)
      requires Valid()
      modifies `stopOrders, `stopOrderIDs, `sequence
      ensures Valid() && Sane(old(State())) && Footprint() == old(Footprint())
      ensures Step(State(), r) == BookSpec.PlaceTrailing(old(State()), input)
    {
      hide Linked, WF, Sane, BookSide.View, BookSpec.PlaceStop, Footprint;
      WFSane(State());
      if last.None? {
        return Err(NoTradeYet);
      }
      if input.trailingAmount.None? || input.trailingAmount.value <= 0 {
        return Err(BadTrailingAmount);
      }
      if input.side.None? {
        return Err(InvalidSide);
      }
      var trigger := last.value;
      var peak, valley := None, None;
      if input.side.value == Sell {
        peak := last;
        trigger := trigger - input.trailingAmount.value;
      }
      if input.side.value == Buy {
        valley := last;
        trigger := trigger + input.trailingAmount.value;
      }
      r := PlaceStopWithExtrema(TrailingStopMarket, input.(trigger := Some(trigger)), peak, valley);
    }

    /** Take a resting order off its level, cancel it, and forget its id. */
    method Unrest(side: BookSide, ghost other: seq<OrderRef>, o: OrderRef)
      requires side.Linked() && Indexed(orders, side.queue, other) && o in side.queue && Live(o.View())
      requires forall i :: 0 <= i < |other| ==> other[i].side != side.side
      modifies `orders, side, side.LevelSet(), o
      ensures side.Linked() && side.LevelSet() <= old(side.LevelSet()) && Indexed(orders, side.queue, other)
      ensures side.View() == Without(old(side.View()), o.id) && o.View() == old(o.View()).(status := Cancelled)
      ensures forall i :: 0 <= i < |side.queue| ==> side.queue[i] in old(side.queue)
    {
      hide Sum, RefsAt, Views, Indexed, SideLinked, WithoutRef, BookSide.View, IndexOf, Holds;
      side.DistinctIds();
      side.PriceListed(o);
      ghost var q := side.queue;
      ViewIsViews(side);
      ViewsWithout(q, o);
      WithoutMembers(q, o);
      assert o !in other;
      IndexedWithout(orders, q, other, o);
      var level := side.levels[RefPx(o)];
      side.Unlink(level, o);
      ViewIsViews(side);
      ghost var v := side.View();
      var error := o.CancelUp();
      orders := orders - {o.id};
      assert side.View() == v;
    }

    lemma ViewIsViews(side: BookSide)
      ensures side.View() == Views(side.queue)
    {
    }

    /** Taking an order off, as a change of the book's value. */
    method UnrestBook(o: OrderRef)
      requires Linked() && StopsLinked() && o in OwnSide(o.side).queue && Live(o.View())
      modifies `orders, OwnSide(o.side), OwnSide(o.side).LevelSet(), o
      ensures Linked() && StopsLinked()
      ensures OwnSide(o.side).LevelSet() <= old(OwnSide(o.side).LevelSet()) && Members() <= old(Members())
      ensures State() == SetQueues(old(State()), o.side, Without(Own(old(State()), o.side), o.id),
                                   Opposite(old(State()), o.side))
      ensures o.View() == old(o.View()).(status := Cancelled)
    {
      hide Sum, RefsAt, Views, Indexed, SideLinked, BookSide.View, Without, StopsIn, Listed;
      ghost var other := OppositeSide(o.side);
      SidesApart();
      QueueSide(other);
      IndexedSymmetric(orders, bids.queue, asks.queue);
      assert o !in other.queue;
      Unrest(if o.side == Buy then bids else asks, other.queue, o);
      IndexedSymmetric(orders, bids.queue, asks.queue);
      assert other.Linked();
    }

    /** Take an order off and number the two events. */
    method UnrestAndCount(o: OrderRef)
      requires Linked() && StopsLinked() && o in OwnSide(o.side).queue && Live(o.View())
      modifies `orders, `sequence, Footprint()
      ensures Linked() && StopsLinked() && Footprint() <= old(Footprint())
      ensures var c := SetQueues(old(State()), o.side, Without(Own(old(State()), o.side), o.id), Opposite(old(State()), o.side));
              State() == c.(sequence := c.sequence + 2)
      ensures o.View() == old(o.View()).(status := Cancelled)
    {
      hide Linked, StopsLinked, BookSide.View, Without, SetQueues, Live;
      UnrestBook(o);
      Count(2);
    }

    /** Cancel a resting order: only its own side changes. */
    method CancelResting(o: OrderRef)
      requires Valid() && o in Members()
      modifies `orders, `sequence, Footprint()
      ensures Valid() && Footprint() <= old(Footprint())
      ensures Sane(old(State())) && Holds(Own(old(State()), o.side), o.id)
      ensures Step(State(), Ok(Reply(OrderPlaced(o.View()), [], [], [], [], 2))) == CancelOnSide(old(State()), o.side, o.id)
    {
      hide Linked, BookSide.View, WF, Without, Holds, IndexOf, LiveQueue, Sane, StopsLinked, Live, CancelOnSide, SetQueues,
           Footprint, Members;
      ghost var b := State();
      WFSane(b);
      MemberLive(o);
      FoundByView(o);
      CancelOnSideKeepsWF(b, o.side, o.id);
      CancelSteps(b, o.View());
      UnrestAndCount(o);
    }

    /** Number events, without a claim about the book being valid. */
    method Count(n: nat)
      requires Linked() && StopsLinked()
      modifies `sequence
      ensures Linked() && StopsLinked() && State() == old(State()).(sequence := old(State()).sequence + n)
      ensures Footprint() == old(Footprint())
    {
      hide BookSide.View, SideLinked, RefsAt, Views, Sum, Listed, Indexed;
      assert bids.Linked() && asks.Linked();
      sequence := sequence + n;
    }

    lemma MemberLive(o: OrderRef)
      requires Valid() && o in Members()
      ensures Live(o.View()) && o in OwnSide(o.side).queue
    {
      hide RefsAt, Sum, SideLinked;
      QueueSide(bids);
      QueueSide(asks);
      SidesOk();
      if o in bids.queue {
        var i :| 0 <= i < |bids.queue| && bids.queue[i] == o;
        assert Live(bids.View()[i]);
      } else {
        var i :| 0 <= i < |asks.queue| && asks.queue[i] == o;
        assert Live(asks.View()[i]);
      }
    }

    lemma IndexedMember(id: string)
      requires Valid()
      ensures id in orders ==> orders[id] in Members() && orders[id].id == id && Active(orders[id].View())
      ensures id in orders ==> orders[id].side == if Holds(State().bids, id) then Buy else Sell
      ensures id in orders <==> Holds(State().bids, id) || Holds(State().asks, id)
    {
      hide WF, RefsAt, Sum, SideLinked, StopsIn, Listed, IndexOf;
      IndexMeans(id);
      HoldsIffIn(State().bids, id);
      HoldsIffIn(State().asks, id);
      if id in orders {
        MemberLive(orders[id]);
        FoundByView(orders[id]);
        SidesDisjoint(State(), id);
      }
    }

    /** Cancel a pending stop, or else a resting order.  An indexed order is always active. */
    method CancelCommand(id: string) returns (r: Result<Reply, Error>)
      requires Valid()
      modifies `stopOrders, `stopOrderIDs, `orders, `sequence, Footprint()
      ensures Valid() && Sane(old(State())) && Footprint() <= old(Footprint())
      ensures Step(State(), r) == CancelById(old(State()), id)
    {
      hide Linked, BookSide.View, WF, Without, WithoutStop, Holds, IndexOf, StopIndex, LiveQueue, Sane, Live,
           CancelOnSide, Members, Footprint;
      WFSane(State());
      HoldsIffMapped(stopOrderIDs, stopOrders, id);
      IndexedMember(id);
      if id in stopOrders {
        var stop := stopOrders[id];
        TakeOff(id, null);
        return Ok(Reply(StopPlaced(stop.(status := Cancelled)), [], [], [], [], 2));
      }
      if id !in orders {
        return Err(OrderNotFound);
      }
      var o := orders[id];
      CancelResting(o);
      return Ok(Reply(OrderPlaced(o.View()), [], [], [], [], 2));
    }

    /** One command. */
    method Execute(c: Command, clock: Clock) returns (r: Result<Reply, Error>)
      requires Valid()
      modifies this, Footprint()
      ensures Valid() && Sane(old(State()))
      ensures forall x :: x in Footprint() ==> x in old(Footprint()) || fresh(x)
      ensures Step(State(), r) == Exec(old(State()), c, clock)
    {
      hide Linked, StopsLinked, BookSide.View, WF, Sane, BookSpec.Place, BookSpec.PlaceStop, PlaceTrailing, CancelById, Members, Footprint;
      WFSane(State());
      match c {
        case PlaceLimit(input) => r := PlaceOrder(Limit, input, clock);
        case PlaceMarket(input) => r := PlaceOrder(Market, input, clock);
        case PlaceStopMarket(input) => r := PlaceStopWithExtrema(StopMarket, input, None, None);
        case PlaceStopLimit(input) => r := PlaceStopWithExtrema(StopLimit, input, None, None);
        case PlaceTrailingStopMarket(input) => r := PlaceTrailingStop(input);
        case Cancel(id) => r := CancelCommand(id);
        case Malformed => r := Err(MalformedPayload);
        case Unsupported => r := Err(UnsupportedCommand);
      }
    }
  }

  lemma HeadIsLive(v: seq<Order>)
    requires LiveQueue(v) && v != []
    ensures Live(v[0])
  {
  }
}
