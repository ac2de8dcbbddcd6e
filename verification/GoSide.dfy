/** The heap operations on one side of the book: finding the best price,
    hitting the order at the head, unlinking an order and resting a new one.
    Each is proved against the side's queue. */
module GoSide {
  import opened Types
  import opened Matching
  import opened BookSpec
  import opened GoOrders
  import opened GoLevels

  lemma HasMember(keys: set<int>)
    ensures keys == {} || exists k :: k in keys
  {
    if !exists k :: k in keys {
      assert forall k :: k in keys <==> k in {};
      assert keys == {};
    }
  }

  /** The best price of a side, by a scan over the map in arbitrary order. */
  method BestPrice<V>(levels: map<int, V>, findMin: bool) returns (best: int, found: bool)
    ensures found <==> levels.Keys != {}
    ensures found ==> best in levels && forall p :: p in levels ==> (if findMin then best <= p else p <= best)
  {
    var keys := levels.Keys;
    best, found := 0, false;
    while keys != {}
      invariant keys <= levels.Keys
      invariant found <==> keys != levels.Keys
      invariant found ==> best in levels && forall p :: p in levels.Keys && p !in keys ==>
                            (if findMin then best <= p else p <= best)
      decreases keys
    {
      HasMember(keys);
      var price :| price in keys;
      if !found || (findMin && price < best) || (!findMin && price > best) {
        best, found := price, true;
      }
      keys := keys - {price};
    }
  }

  lemma SortedHead(v: seq<Order>, i: nat)
    requires Sorted(v) && i < |v|
    ensures Rank(v[0]) <= Rank(v[i])
  {
  }

  lemma HeadIsBest(q: seq<OrderRef>, side: Side, i: nat)
    requires Sorted(Views(q)) && i < |q| && q[0].side == side && q[i].side == side
    ensures if side == Sell then RefPx(q[0]) <= RefPx(q[i]) else RefPx(q[i]) <= RefPx(q[0])
  {
    hide Views, Sorted;
    SortedHead(Views(q), i);
    assert Views(q)[0] == q[0].View() && Views(q)[i] == q[i].View();
  }

  /** The best price is the price of the head of the queue. */
  lemma BestIsHead(levels: map<int, PriceLevel>, q: seq<OrderRef>, side: Side, best: int)
    requires SideLinked(levels, q, side) && Sorted(Views(q))
    requires best in levels && forall p :: p in levels ==> (if side == Sell then best <= p else p <= best)
    ensures q != [] && RefPx(q[0]) == best
    ensures levels[best].orders != [] && levels[best].orders[0] == q[0]
  {
    hide Sum, Views, Sorted;
    assert LevelLinked(levels[best], q, best, side);
    var head := RefsAt(q, best)[0];
    var i :| 0 <= i < |q| && q[i] == head;
    HeadIsBest(q, side, i);
    assert RefPx(q[0]) in levels;
  }

  lemma NoLevelsNoOrders(levels: map<int, PriceLevel>, q: seq<OrderRef>, side: Side)
    requires SideLinked(levels, q, side)
    ensures levels.Keys == {} ==> q == []
  {
    assert q != [] ==> RefPx(q[0]) in levels;
  }

  // ------------------------------------------------------------------ unlink

  lemma OthersKeepLevels(q: seq<OrderRef>, o: OrderRef, price: int)
    requires price != RefPx(o)
    ensures RefsAt(WithoutRef(q, o), price) == RefsAt(q, price)
  {
    RefsAtWithout(q, o, price);
    NotThere(RefsAt(q, price), o);
  }

  lemma GoneIfEmpty(q: seq<OrderRef>, price: int, i: nat)
    requires RefsAt(q, price) == [] && i < |q|
    ensures RefPx(q[i]) != price
  {
    if RefPx(q[i]) == price {
      RefsAtMember(q, q[i]);
    }
  }

  lemma LevelWithout(l: PriceLevel, q: seq<OrderRef>, side: Side, o: OrderRef)
    requires LevelLinked(l, q, RefPx(o), side) && o in q
    ensures o in l.orders && RefsAt(WithoutRef(q, o), RefPx(o)) == WithoutRef(l.orders, o)
    ensures Sum(Views(RefsAt(WithoutRef(q, o), RefPx(o)))) == l.total - o.remaining
  {
    hide Sum, Views, WithoutRef;
    RefsAtMember(q, o);
    RefsAtWithout(q, o, RefPx(o));
    SumWithoutRef(RefsAt(q, RefPx(o)), o);
  }

  lemma LevelUntouched(l: PriceLevel, q: seq<OrderRef>, side: Side, o: OrderRef, price: int)
    requires LevelLinked(l, q, price, side) && price != RefPx(o) && o in q
    requires forall i, j :: 0 <= i < j < |q| ==> q[i].id != q[j].id
    ensures LevelLinked(l, WithoutRef(q, o), price, side)
  {
    hide Sum, Views, WithoutRef, RefsAt;
    OthersKeepLevels(q, o, price);
    WithoutMembers(q, o);
  }

  lemma StillPriced(levels: map<int, PriceLevel>, q: seq<OrderRef>, o: OrderRef, side: Side, i: nat)
    requires SideLinked(levels, q, side) && o in q && i < |WithoutRef(q, o)|
    ensures WithoutRef(q, o)[i].side == side && RefPx(WithoutRef(q, o)[i]) in levels
    ensures RefsAt(WithoutRef(q, o), RefPx(o)) == [] ==> RefPx(WithoutRef(q, o)[i]) != RefPx(o)
  {
    hide Sum, Views;
    WithoutMembers(q, o);
    assert WithoutRef(q, o)[i] in q;
    if RefsAt(WithoutRef(q, o), RefPx(o)) == [] {
      GoneIfEmpty(WithoutRef(q, o), RefPx(o), i);
    }
  }

  /** Take an order off its level, and drop the level if it was the last. */
  method UnlinkFrom(levels: map<int, PriceLevel>, ghost q: seq<OrderRef>, ghost side: Side, level: PriceLevel, o: OrderRef)
    returns (levels': map<int, PriceLevel>)
    requires SideLinked(levels, q, side) && o in q
    requires RefPx(o) in levels && level == levels[RefPx(o)]
    modifies level
    ensures SideLinked(levels', WithoutRef(q, o), side)
    ensures forall p :: p in levels' ==> p in levels && levels'[p] == levels[p]
  {
    hide Sum, Views, WithoutRef, RefsAt;
    ghost var q' := WithoutRef(q, o);
    forall p | p in levels && p != RefPx(o)
      ensures LevelLinked(levels[p], q', p, side) && levels[p] != level
    {
      LevelUntouched(levels[p], q, side, o, p);
    }
    forall i | 0 <= i < |q'|
      ensures q'[i].side == side && RefPx(q'[i]) in levels
      ensures RefsAt(q', RefPx(o)) == [] ==> RefPx(q'[i]) != RefPx(o)
    {
      StillPriced(levels, q, o, side, i);
    }
    LevelWithout(level, q, side, o);
    WithoutMembers(q, o);
    ghost var r := RefsAt(q', RefPx(o));
    level.Remove(o);
    assert Views(r) == old(Views(r));
    levels' := levels;
    if |level.orders| == 0 {
      levels' := levels - {level.price};
    }
    assert level.orders != [] ==> LevelLinked(level, q', RefPx(o), side);
    forall p | p in levels && p != RefPx(o)
      ensures LevelLinked(levels[p], q', p, side)
    {
    }
  }

  // ----------------------------------------------------------------- resting

  lemma BehindDiffer(q: seq<OrderRef>, o: OrderRef, i: nat)
    requires Sorted(Views(q)) && Slot(Views(q), o.View()) <= i < |q| && q[i].side == o.side
    ensures RefPx(q[i]) != RefPx(o)
  {
    hide Views, Sorted, Slot;
    var v, k := Views(q), Slot(Views(q), o.View());
    SortedPair(v, k, i);
    assert v[i] == q[i].View();
  }

  lemma SortedPair(v: seq<Order>, i: nat, j: nat)
    requires Sorted(v) && i <= j < |v|
    ensures Rank(v[i]) <= Rank(v[j])
  {
  }

  /** Where the new order lands in the queue, and that its level gets it last. */
  lemma LandsLast(q: seq<OrderRef>, o: OrderRef, side: Side)
    requires Sorted(Views(q)) && o.side == side && forall i :: 0 <= i < |q| ==> q[i].side == side
    ensures var k := Slot(Views(q), o.View());
            k <= |q| && forall p :: RefsAt(InsertRef(q, k, o), p) == RefsAt(q, p) + (if RefPx(o) == p then [o] else [])
  {
    hide Views, Sorted, RefsAt, Slot;
    var k := Slot(Views(q), o.View());
    forall i | k <= i < |q|
      ensures RefPx(q[i]) != RefPx(o)
    {
      BehindDiffer(q, o, i);
    }
    forall p {:trigger RefsAt(q, p)}
      ensures RefsAt(InsertRef(q, k, o), p) == RefsAt(q, p) + (if RefPx(o) == p then [o] else [])
    {
      RefsAtInsert(q, k, o, p);
    }
  }

  lemma SumWith(r: seq<OrderRef>, o: OrderRef)
    ensures Sum(Views(r + [o])) == Sum(Views(r)) + o.remaining
  {
    ViewsAppend(r, [o]);
    ViewsOne(o);
    SumAppend(Views(r), [o.View()]);
    assert Sum([o.View()]) == o.remaining;
  }

  lemma EmptyLevelPrice(levels: map<int, PriceLevel>, q: seq<OrderRef>, side: Side, price: int)
    requires SideLinked(levels, q, side) && price !in levels
    ensures RefsAt(q, price) == [] && Sum(Views(RefsAt(q, price))) == 0
  {
    NoneAt(q, price);
  }

  /** The level of a price, made if there is none. */
  method EnsureLevel(levels: map<int, PriceLevel>, ghost q: seq<OrderRef>, ghost side: Side, price: int)
    returns (levels': map<int, PriceLevel>)
    requires SideLinked(levels, q, side)
    ensures levels'.Keys == levels.Keys + {price}
    ensures forall p :: p in levels' ==> if p in levels then levels'[p] == levels[p] else fresh(levels'[p])
    ensures var level := levels'[price];
            && level.price == price && level.side == side
            && level.orders == RefsAt(q, price) && level.total == Sum(Views(RefsAt(q, price)))
  {
    hide Views, RefsAt, Sum;
    levels' := levels;
    if price in levels {
      assert LevelLinked(levels[price], q, price, side);
    } else {
      EmptyLevelPrice(levels, q, side, price);
      var level := new PriceLevel(price, side);
      levels' := levels'[price := level];
    }
  }

  /** Put an order at the end of its level, which is made if there is none. */
  method RestOn(levels: map<int, PriceLevel>, ghost q: seq<OrderRef>, ghost side: Side, o: OrderRef)
    returns (levels': map<int, PriceLevel>, ghost q': seq<OrderRef>)
    requires SideLinked(levels, q, side) && Sorted(Views(q))
    requires o.side == side && forall i :: 0 <= i < |q| ==> q[i].id != o.id
    modifies set p | p in levels && p == RefPx(o) :: levels[p]
    ensures old(Slot(Views(q), o.View())) <= |q| && q' == InsertRef(q, old(Slot(Views(q), o.View())), o)
    ensures SideLinked(levels', q', side)
    ensures levels'.Keys == levels.Keys + {RefPx(o)}
    ensures forall p :: p in levels' ==> if p in levels then levels'[p] == levels[p] else fresh(levels'[p])
  {
    hide Views, Sorted, RefsAt, Slot, Sum, InsertRef, SideLinked;
    SideParts(levels, q, side);
    LandsLast(q, o, side);
    ghost var k := Slot(Views(q), o.View());
    q' := InsertRef(q, k, o);
    InsertedParts(levels, q, side, o, k);
    var price := RefPx(o);
    SumWith(RefsAt(q, price), o);
    levels' := EnsureLevel(levels, q, side, price);
    var level := levels'[price];
    level.Append(o);
    forall p | p in levels'
      ensures LevelLinked(levels'[p], q', p, side)
    {
      if p != price {
        assert old(LevelLinked(levels[p], q, p, side));
        assert RefsAt(q, p) + [] == RefsAt(q, p);
      }
    }
    AllLinked(levels', q', side);
  }

  lemma SideParts(levels: map<int, PriceLevel>, q: seq<OrderRef>, side: Side)
    requires SideLinked(levels, q, side)
    ensures forall i :: 0 <= i < |q| ==> q[i].side == side
    ensures forall p :: p in levels ==> LevelLinked(levels[p], q, p, side)
  {
    hide LevelLinked;
  }

  lemma AllLinked(levels: map<int, PriceLevel>, q: seq<OrderRef>, side: Side)
    requires forall i :: 0 <= i < |q| ==> q[i].side == side && RefPx(q[i]) in levels
    requires forall p :: p in levels ==> LevelLinked(levels[p], q, p, side)
    requires forall i, j :: 0 <= i < j < |q| ==> q[i].id != q[j].id
    ensures SideLinked(levels, q, side)
  {
    hide LevelLinked;
  }

  /** What the queue with a new order says of its sides, prices and ids. */
  lemma InsertedParts(levels: map<int, PriceLevel>, q: seq<OrderRef>, side: Side, o: OrderRef, k: nat)
    requires SideLinked(levels, q, side) && k <= |q| && o.side == side && forall i :: 0 <= i < |q| ==> q[i].id != o.id
    ensures var w := InsertRef(q, k, o);
            && (forall i :: 0 <= i < |w| ==> w[i].side == side && (RefPx(w[i]) in levels || RefPx(w[i]) == RefPx(o)))
            && (forall i, j :: 0 <= i < j < |w| ==> w[i].id != w[j].id)
  {
    hide LevelLinked;
    InsertedPriced(levels, q, side, o, k);
    InsertMembers(q, k, o);
  }

  lemma InsertedPriced(levels: map<int, PriceLevel>, q: seq<OrderRef>, side: Side, o: OrderRef, k: nat)
    requires SideLinked(levels, q, side) && k <= |q| && o.side == side
    ensures forall i :: 0 <= i < |q| + 1 ==>
              InsertRef(q, k, o)[i].side == side
              && (RefPx(InsertRef(q, k, o)[i]) in levels || RefPx(InsertRef(q, k, o)[i]) == RefPx(o))
  {
    hide LevelLinked, RefsAt, Views, Sum;
    var w := InsertRef(q, k, o);
    forall i | 0 <= i < |w|
      ensures w[i].side == side && (RefPx(w[i]) in levels || RefPx(w[i]) == RefPx(o))
    {
      assert w[i] == if i < k then q[i] else if i == k then o else q[i - 1];
    }
  }

  // ------------------------------------------------------------ hitting the head

  lemma HeadLevel(levels: map<int, PriceLevel>, q: seq<OrderRef>, side: Side)
    requires SideLinked(levels, q, side) && q != []
    ensures RefPx(q[0]) in levels && levels[RefPx(q[0])].orders == [q[0]] + RefsAt(q[1..], RefPx(q[0]))
    ensures levels[RefPx(q[0])].total == q[0].remaining + Sum(Views(RefsAt(q[1..], RefPx(q[0]))))
  {
    var price := RefPx(q[0]);
    assert LevelLinked(levels[price], q, price, side);
    var r := RefsAt(q, price);
    assert r[1..] == RefsAt(q[1..], price);
    assert Views(r)[1..] == Views(r[1..]);
  }

  lemma HeadElsewhere(q: seq<OrderRef>, price: int)
    requires q != [] && (forall i, j :: 0 <= i < j < |q| ==> q[i].id != q[j].id)
    ensures q[0] !in RefsAt(q[1..], price)
    ensures price != RefPx(q[0]) ==> RefsAt(q, price) == RefsAt(q[1..], price)
  {
    var r := RefsAt(q[1..], price);
    forall i | 0 <= i < |r|
      ensures r[i] != q[0]
    {
      assert r[i] in q[1..];
      var j :| 0 <= j < |q[1..]| && q[1..][j] == r[i];
      assert r[i] == q[j + 1];
    }
  }

  /** The head of the queue is on no other level. */
  lemma HeadNotThere(levels: map<int, PriceLevel>, q: seq<OrderRef>, side: Side, p: int)
    requires SideLinked(levels, q, side) && q != [] && p in levels && p != RefPx(q[0])
    ensures LevelLinked(levels[p], q, p, side) && RefPx(q[0]) in levels && levels[p] != levels[RefPx(q[0])]
    ensures q[0] !in RefsAt(q, p)
  {
    hide RefsAt, Views, Sum;
    HeadElsewhere(q, p);
    assert LevelLinked(levels[RefPx(q[0])], q, RefPx(q[0]), side);
  }

  /** What is left of the level's total when a quantity of its head is gone. */
  lemma HeadTotal(q: seq<OrderRef>, tail: seq<Order>, total: int)
    requires q != [] && Views(RefsAt(q[1..], RefPx(q[0]))) == tail && total == q[0].remaining + Sum(tail)
    ensures total == Sum(Views(RefsAt(q, RefPx(q[0]))))
  {
    hide RefsAt, Views, Sum;
    HeadSum(q, RefPx(q[0]));
  }

  /** The head of a level: filled, and the quantity taken off the level's total. */
  method HitLevel(ghost q: seq<OrderRef>, ghost side: Side, level: PriceLevel, resting: OrderRef, quantity: int)
    requires q != [] && resting == q[0] && LevelLinked(level, q, RefPx(q[0]), side)
    requires level.total == q[0].remaining + Sum(Views(RefsAt(q[1..], RefPx(q[0])))) && q[0] !in RefsAt(q[1..], RefPx(q[0]))
    requires Fill(resting.View(), quantity).Ok?
    modifies level, resting
    ensures LevelLinked(level, q, RefPx(q[0]), side) && level.orders == old(level.orders)
    ensures resting.View() == FilledBy(old(resting.View()), quantity)
  {
    hide Views, RefsAt, Sum;
    ghost var tail := RefsAt(q[1..], RefPx(q[0]));
    ghost var t := Views(tail);
    var error := resting.FillUp(quantity);
    assert error == None;
    level.total := level.total - quantity;
    assert Views(tail) == t;
    HeadTotal(q, t, level.total);
  }

  /** Fill the order at the head of the queue and take the quantity off its level's total. */
  method HitHead(ghost levels: map<int, PriceLevel>, ghost q: seq<OrderRef>, ghost side: Side,
                 level: PriceLevel, resting: OrderRef, quantity: int)
    requires SideLinked(levels, q, side) && q != [] && resting == q[0] && level == levels[RefPx(q[0])]
    requires Fill(resting.View(), quantity).Ok?
    modifies level, resting
    ensures SideLinked(levels, q, side)
    ensures resting.View() == FilledBy(old(resting.View()), quantity)
    ensures level.orders == old(level.orders)
  {
    hide Views, RefsAt, Sum, Fill, FilledBy;
    HeadLevel(levels, q, side);
    HeadElsewhere(q, RefPx(q[0]));
    forall p | p in levels && p != RefPx(q[0])
      ensures LevelLinked(levels[p], q, p, side) && levels[p] != level && resting !in RefsAt(q, p)
    {
      HeadNotThere(levels, q, side, p);
    }
    assert LevelLinked(level, q, RefPx(q[0]), side);
    HitLevel(q, side, level, resting, quantity);
    forall p | p in levels && p != RefPx(q[0])
      ensures LevelLinked(levels[p], q, p, side)
    {
      assert old(LevelLinked(levels[p], q, p, side));
    }
  }

  lemma HeadSum(q: seq<OrderRef>, price: int)
    requires q != [] && price == RefPx(q[0])
    ensures Sum(Views(RefsAt(q, price))) == q[0].remaining + Sum(Views(RefsAt(q[1..], price)))
  {
    var r := RefsAt(q, price);
    assert r[1..] == RefsAt(q[1..], price);
    assert Views(r)[1..] == Views(r[1..]);
  }

  predicate DistinctRefs(q: seq<OrderRef>) {
    forall i, j :: 0 <= i < j < |q| ==> q[i] != q[j]
  }

  lemma FillGives(o: Order, quantity: int)
    requires Fill(o, quantity).Ok?
    ensures Fill(o, quantity) == Ok(FilledBy(o, quantity))
  {
  }

  /** One side of the book: a map of levels, shared by reference, with its ghost queue. */
  class BookSide {
    ghost const side: Side
    var levels: map<int, PriceLevel>
    ghost var queue: seq<OrderRef>

    ghost function LevelSet(): set<PriceLevel>
      reads this
    {
      set p | p in levels :: levels[p]
    }

    ghost predicate Linked()
      reads this, queue, LevelSet()
    {
      SideLinked(levels, queue, side)
    }

    ghost function View(): (v: seq<Order>)
      reads this, queue
      ensures |v| == |queue| && forall i :: 0 <= i < |queue| ==> v[i] == queue[i].View()
    {
      Views(queue)
    }

    constructor (ghost side: Side)
      ensures Linked() && this.side == side && queue == [] && levels == map[]
    {
      this.side := side;
      levels, queue := map[], [];
    }

    /** The best price, if there is any order: the price of the head of the queue. */
    method Best(findMin: bool) returns (best: int, found: bool)
      requires Linked() && Sorted(View()) && (findMin <==> side == Sell)
      ensures found <==> queue != []
      ensures found ==> best in levels && best == RefPx(queue[0])
    {
      hide Sorted, Views, RefsAt, Sum;
      best, found := BestPrice(levels, findMin);
      NoLevelsNoOrders(levels, queue, side);
      if found {
        BestIsHead(levels, queue, side, best);
      }
    }

    lemma HeadListed()
      requires Linked() && queue != []
      ensures RefPx(queue[0]) in levels && queue[0].side == side
      ensures var l := levels[RefPx(queue[0])]; l in LevelSet() && l.orders != [] && l.orders[0] == queue[0]
    {
      hide Sum;
      HeadLevel(levels, queue, side);
    }

    /** Take over levels that hang together with a queue. */
    method Adopt(levels: map<int, PriceLevel>, ghost q: seq<OrderRef>)
      requires SideLinked(levels, q, side)
      modifies this
      ensures Linked() && queue == q && this.levels == levels && View() == old(Views(q))
    {
      hide Views, RefsAt, LevelLinked;
      this.levels, queue := levels, q;
    }

    lemma PriceListed(o: OrderRef)
      requires Linked() && o in queue
      ensures RefPx(o) in levels && levels[RefPx(o)] in LevelSet() && o.side == side
    {
      hide Sum, RefsAt;
    }

    lemma DistinctIds()
      requires Linked()
      ensures forall i, j :: 0 <= i < j < |queue| ==> queue[i].id != queue[j].id
    {
    }

    lemma Distinct()
      requires Linked()
      ensures DistinctRefs(queue)
    {
      DistinctIds();
    }

    /** Fill the order at the head of the queue. */
    method Hit(level: PriceLevel, resting: OrderRef, quantity: int)
      requires Linked() && queue != [] && resting == queue[0]
      requires RefPx(resting) in levels && level == levels[RefPx(resting)]
      requires Fill(resting.View(), quantity).Ok?
      modifies level, resting
      ensures Linked()
      ensures resting.View() == FilledBy(old(resting.View()), quantity)
      ensures View() == [resting.View()] + old(View())[1..]
    {
      hide Sum, RefsAt, FilledBy, Fill;
      HeadElsewhere(queue, RefPx(resting));
      HitHead(levels, queue, side, level, resting, quantity);
      assert Views(queue[1..]) == old(Views(queue[1..]));
    }

    /** Fill an incoming order against the head of the queue.  Neither fill can fail. */
    method Cross(incoming: OrderRef, level: PriceLevel, resting: OrderRef, quantity: int)
      requires Linked() && queue != [] && resting == queue[0] && incoming !in queue
      requires RefPx(resting) in levels && level == levels[RefPx(resting)]
      requires Fill(resting.View(), quantity).Ok? && Fill(incoming.View(), quantity).Ok?
      modifies level, resting, incoming
      ensures Linked()
      ensures incoming.View() == FilledBy(old(incoming.View()), quantity)
      ensures resting.View() == FilledBy(old(resting.View()), quantity)
      ensures View() == [resting.View()] + old(View())[1..]
    {
      hide Sum, RefsAt, FilledBy, Fill, Views, SideLinked;
      FillGives(incoming.View(), quantity);
      var error := incoming.FillUp(quantity);
      assert error == None;
      Hit(level, resting, quantity);
    }

    /** Take an order off the side. */
    method Unlink(level: PriceLevel, o: OrderRef)
      requires Linked() && o in queue
      requires RefPx(o) in levels && level == levels[RefPx(o)]
      modifies this, level
      ensures Linked() && LevelSet() <= old(LevelSet())
      ensures queue == WithoutRef(old(queue), o)
    {
      hide Sum, RefsAt, Views, WithoutRef, SideLinked;
      levels := UnlinkFrom(levels, queue, side, level, o);
      queue := WithoutRef(queue, o);
    }

    /** Rest an order behind everything at least as good. */
    method Rest(o: OrderRef)
      requires Linked() && Sorted(View()) && o.side == side
      requires forall i :: 0 <= i < |queue| ==> queue[i].id != o.id
      modifies this, LevelSet()
      ensures Linked()
      ensures forall l :: l in LevelSet() ==> l in old(LevelSet()) || fresh(l)
      ensures View() == Insert(old(View()), o.View())
      ensures Slot(old(View()), o.View()) <= |old(queue)|
      ensures queue == InsertRef(old(queue), Slot(old(View()), o.View()), o)
    {
      hide Sum, RefsAt, Views, SideLinked, Sorted, Slot, Insert;
      ViewsInsert(queue, o);
      levels, queue := RestOn(levels, queue, side, o);
    }
  }
}
