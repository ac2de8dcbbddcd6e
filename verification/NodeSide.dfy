/** A side of the Node engine's book: a map of linked levels, matched against
    one trade at a time, with the same outcome as the flat queue. */
module NodeSide {
  import opened Types
  import opened Matching
  import opened BookSpec
  import opened Invariant
  import opened Recovery
  import opened GoSide
  import opened LinkedLevel

  // ------------------------------------------------------------------- values

  /** A queue that may be matched against: live orders of one side, best price first. */
  predicate Queue(v: seq<Order>, side: Side) {
    LiveQueue(v) && Sorted(v) && forall i :: 0 <= i < |v| ==> v[i].side == side
  }

  lemma QueueAfterHit(v: seq<Order>, side: Side, n: int)
    requires Queue(v, side) && v != [] && LiveQueue(AfterHit(v, n))
    ensures Queue(AfterHit(v, n), side)
  {
    AfterHitSorted(v, n);
  }

  /** Hitting the head of the queue hits the head of its level, and no other level. */
  lemma HitLevel(v: seq<Order>, n: int, p: int)
    requires v != []
    ensures p == Px(v[0]) ==> At(v, p) != [] && At(v, p)[0] == v[0] && At(AfterHit(v, n), p) == AfterHit(At(v, p), n)
    ensures p != Px(v[0]) ==> At(AfterHit(v, n), p) == At(v, p)
  {
    var w := AfterHit(v, n);
    if n != v[0].remaining {
      assert w[0] == FilledBy(v[0], n) && w[1..] == v[1..];
    }
    if p == Px(v[0]) {
      assert At(v, p)[1..] == At(v[1..], p);
    }
  }

  lemma BestIsFirst(v: seq<Order>, side: Side, best: int)
    requires Queue(v, side) && (exists i :: 0 <= i < |v| && Px(v[i]) == best)
    requires forall i :: 0 <= i < |v| ==> if side == Sell then best <= Px(v[i]) else Px(v[i]) <= best
    ensures v != [] && Px(v[0]) == best
  {
    var i :| 0 <= i < |v| && Px(v[i]) == best;
    assert i > 0 ==> Rank(v[0]) <= Rank(v[i]);
  }

  /** What a trade at the head takes out of the queue. */
  lemma IdsAfterHit(v: seq<Order>, n: int)
    requires v != [] && NoDup(v)
    ensures NoDup(AfterHit(v, n))
    ensures Ids(AfterHit(v, n)) == if n == v[0].remaining then Ids(v) - {v[0].id} else Ids(v)
  {
    var w, d := AfterHit(v, n), |v| - |AfterHit(v, n)|;
    assert forall i :: 0 <= i < |w| ==> w[i].id == v[i + d].id;
    forall id | id in Ids(v) && (id != v[0].id || d == 0)
      ensures id in Ids(w)
    {
      var i :| 0 <= i < |v| && v[i].id == id;
      assert w[i - d].id == id;
    }
  }

  // --------------------------------------------------------------------- heap

  ghost function Objects(levels: map<int, Level>): set<object> {
    set p | p in levels :: levels[p]
  }

  ghost function Nodes(levels: map<int, Level>): set<object>
    reads Objects(levels)
  {
    set p, i | p in levels && 0 <= i < |levels[p].nodes| :: levels[p].nodes[i]
  }

  /** The level at a price holds the orders of the queue with that price. */
  ghost predicate LevelIs(l: Level, v: seq<Order>, p: int)
    reads l, l.nodes
  {
    l.price == p && l.nodes != [] && l.Valid() && l.View() == At(v, p)
  }

  ghost predicate SideIs(levels: map<int, Level>, v: seq<Order>)
    reads Objects(levels), Nodes(levels)
  {
    && (forall p :: p in levels ==> LevelIs(levels[p], v, p))
    && (forall i :: 0 <= i < |v| ==> Px(v[i]) in levels)
  }

  /** Levels share no order: each order points back at its level. */
  lemma LevelsApart(levels: map<int, Level>, v: seq<Order>, p: int, q: int)
    requires SideIs(levels, v) && p in levels && q in levels && p != q
    ensures levels[p] != levels[q]
    ensures forall i, j :: 0 <= i < |levels[p].nodes| && 0 <= j < |levels[q].nodes| ==> levels[p].nodes[i] != levels[q].nodes[j]
  {
    hide Sum, At, Views;
    assert LevelIs(levels[p], v, p) && LevelIs(levels[q], v, q);
  }

  /** Trade at the best level: the other levels are as they were. */
  method CrossBest(levels: map<int, Level>, ghost v: seq<Order>, incoming: OrderNode, best: int) returns (trade: Trade)
    requires SideIs(levels, v) && LiveQueue(v) && v != [] && best == Px(v[0])
    requires Incoming(incoming.View()) && incoming.remaining > 0 && incoming !in Nodes(levels)
    modifies levels[best], levels[best].nodes, incoming`remaining, incoming`status
    ensures var n := Min(old(incoming.remaining), v[0].remaining);
            && trade == TradeOf(old(incoming.View()), v[0], n)
            && incoming.View() == FilledBy(old(incoming.View()), n)
            && levels[best].Valid() && levels[best].View() == At(AfterHit(v, n), best)
            && old(levels[best].nodes) != [] && old(levels[best].nodes[0]).View() == FilledBy(v[0], n)
            && forall p :: p in levels && p != best ==> LevelIs(levels[p], AfterHit(v, n), p)
    ensures forall p :: p in levels && p != best ==> levels[p].nodes == old(levels[p].nodes)
    ensures forall i :: 0 <= i < |levels[best].nodes| ==> levels[best].nodes[i] in old(levels[best].nodes)
  {
    hide Sum, At, Views, LiveQueue, Incoming, AfterHit, TradeOf, FilledBy, Nodes, Level.Linked, Joined;
    var level := levels[best];
    assert LevelIs(level, v, best);
    HitLevel(v, Min(incoming.remaining, v[0].remaining), best);
    AtLive(v, best);
    OthersApart(levels, v, incoming, best, Min(incoming.remaining, v[0].remaining));
    ghost var w := AfterHit(v, Min(incoming.remaining, v[0].remaining));
    trade := level.Cross(incoming);
    forall p | p in levels && p != best
      ensures LevelIs(levels[p], w, p)
    {
      assert LevelIs(levels[p], v, p);
    }
  }

  /** What a trade at the best level cannot touch. */
  lemma OthersApart(levels: map<int, Level>, v: seq<Order>, incoming: OrderNode, best: int, n: int)
    requires SideIs(levels, v) && v != [] && best == Px(v[0]) && incoming !in Nodes(levels)
    ensures best in levels && incoming !in levels[best].nodes
    ensures forall p :: p in levels && p != best ==>
              && LevelIs(levels[p], v, p) && levels[p] != levels[best] && At(AfterHit(v, n), p) == At(v, p)
              && incoming !in levels[p].nodes
    ensures forall p, i, j :: p in levels && p != best && 0 <= i < |levels[p].nodes| && 0 <= j < |levels[best].nodes| ==>
              levels[p].nodes[i] != levels[best].nodes[j]
  {
    hide Sum, At, Views, AfterHit, LevelIs;
    forall p | p in levels
      ensures p != best ==> levels[p] != levels[best] && At(AfterHit(v, n), p) == At(v, p)
      ensures incoming !in levels[p].nodes
    {
      if p != best {
        LevelsApart(levels, v, p, best);
        HitLevel(v, n, p);
      }
    }
    forall p, i, j | p in levels && p != best && 0 <= i < |levels[p].nodes| && 0 <= j < |levels[best].nodes|
      ensures levels[p].nodes[i] != levels[best].nodes[j]
    {
      LevelsApart(levels, v, p, best);
    }
  }

  /** One turn of the matching loop, at the best price; a level that is used up is dropped. */
  method TurnAt(levels: map<int, Level>, ghost v: seq<Order>, incoming: OrderNode, best: int, ids: map<string, OrderNode>)
    returns (trade: Trade, levels': map<int, Level>, ids': map<string, OrderNode>)
    requires SideIs(levels, v) && LiveQueue(v) && v != [] && best == Px(v[0])
    requires Incoming(incoming.View()) && incoming.remaining > 0 && incoming !in Nodes(levels)
    modifies levels[best], levels[best].nodes, incoming`remaining, incoming`status
    ensures var n := Min(old(incoming.remaining), v[0].remaining);
            && trade == TradeOf(old(incoming.View()), v[0], n)
            && incoming.View() == FilledBy(old(incoming.View()), n)
            && SideIs(levels', AfterHit(v, n))
            && ids' == if n == v[0].remaining then ids - {v[0].id} else ids
    ensures forall p :: p in levels' ==> p in levels && levels'[p] == levels[p]
    ensures forall p :: p in levels' ==> forall i :: 0 <= i < |levels'[p].nodes| ==> levels'[p].nodes[i] in old(Nodes(levels))
  {
    hide Sum, At, Views, LiveQueue, Incoming, AfterHit, TradeOf, FilledBy, Level.Linked;
    ghost var n := Min(incoming.remaining, v[0].remaining);
    ghost var v' := AfterHit(v, n);
    StillPriced(levels, v, n);
    NoneAtPrice(v', best);
    HeadOfBest(levels, v, best, n);
    var resting := levels[best].head;
    trade := CrossBest(levels, v, incoming, best);
    levels', ids' := levels, ids;
    if resting.status == Filled {
      ids' := ids - {resting.id};
    }
    if levels[best].count == 0 {
      levels' := levels - {best};
    }
  }

  /** The head of the best level is the head of the queue; a fill fills it up exactly if it takes all. */
  lemma HeadOfBest(levels: map<int, Level>, v: seq<Order>, best: int, n: int)
    requires SideIs(levels, v) && LiveQueue(v) && v != [] && best == Px(v[0])
    ensures levels[best].nodes != [] && levels[best].head == levels[best].nodes[0] && levels[best].head.id == v[0].id
    ensures FilledBy(v[0], n).status == Filled <==> n == v[0].remaining
  {
    hide Sum, Views;
    assert LevelIs(levels[best], v, best);
    HitLevel(v, n, best);
    assert levels[best].View()[0] == v[0] && Live(v[0]);
  }

  lemma StillPriced(levels: map<int, Level>, v: seq<Order>, n: int)
    requires v != [] && forall i :: 0 <= i < |v| ==> Px(v[i]) in levels
    ensures forall i :: 0 <= i < |AfterHit(v, n)| ==> Px(AfterHit(v, n)[i]) in levels
  {
    var w, d := AfterHit(v, n), |v| - |AfterHit(v, n)|;
    forall i | 0 <= i < |w|
      ensures Px(w[i]) in levels
    {
      assert Px(w[i]) == Px(v[i + d]);
    }
  }

  lemma {:induction false} NoneAtPrice(v: seq<Order>, p: int)
    ensures At(v, p) == [] <==> forall i :: 0 <= i < |v| ==> Px(v[i]) != p
  {
    if v != [] {
      NoneAtPrice(v[1..], p);
    }
  }

  lemma AtLive(v: seq<Order>, p: int)
    requires LiveQueue(v)
    ensures LiveQueue(At(v, p))
  {
    hide Live;
  }

  // ---------------------------------------------------------------- matching

  /** An order about to be matched against a side. */
  ghost predicate Offered(levels: map<int, Level>, v: seq<Order>, incoming: OrderNode, ignorePrice: bool)
    reads incoming, Objects(levels), Nodes(levels)
  {
    && SideIs(levels, v) && Queue(v, Other(incoming.side)) && Incoming(incoming.View()) && incoming !in Nodes(levels)
    && (!ignorePrice ==> incoming.price.Some?)
  }

  /** No level of the one map is missing in the other, and none has gained an order. */
  ghost predicate Within(levels: map<int, Level>, objects: set<object>, nodes: set<object>)
    reads Objects(levels)
  {
    forall p :: p in levels ==>
      levels[p] in objects && forall i :: 0 <= i < |levels[p].nodes| ==> levels[p].nodes[i] in nodes
  }

  /** The orders that have left the queue have left the id map, and no others. */
  predicate Dropped(ids: map<string, OrderNode>, v: seq<Order>, ids': map<string, OrderNode>, v': seq<Order>) {
    NoDup(v') && Ids(v') <= Ids(v) && ids' == ids - (Ids(v) - Ids(v'))
  }

  lemma NothingDropped(ids: map<string, OrderNode>, v: seq<Order>)
    requires NoDup(v)
    ensures Dropped(ids, v, ids, v)
  {
    assert ids - {} == ids;
  }

  lemma DroppedDistinct(ids: map<string, OrderNode>, v: seq<Order>, ids': map<string, OrderNode>, v': seq<Order>)
    requires Dropped(ids, v, ids', v')
    ensures NoDup(v')
  {
  }

  lemma DroppedThen(ids: map<string, OrderNode>, v: seq<Order>, ids1: map<string, OrderNode>, v1: seq<Order>,
                    ids2: map<string, OrderNode>, v2: seq<Order>)
    requires Dropped(ids, v, ids1, v1) && Dropped(ids1, v1, ids2, v2)
    ensures Dropped(ids, v, ids2, v2)
  {
    hide Ids, NoDup;
  }

  /** One turn, in terms of what the rest of the loop has to do. */
  method TurnOn(levels: map<int, Level>, ghost v: seq<Order>, incoming: OrderNode, ghost ignorePrice: bool, best: int,
                ghost trades: seq<Trade>, ids: map<string, OrderNode>)
    returns (trade: Trade, levels': map<int, Level>, ghost v': seq<Order>, ids': map<string, OrderNode>)
    requires Offered(levels, v, incoming, ignorePrice) && incoming.remaining > 0 && NoDup(v)
    requires v != [] && best == Px(v[0]) && Accepts(incoming.View(), ignorePrice, best)
    modifies incoming`remaining, incoming`status, levels[best], levels[best].nodes
    ensures Offered(levels', v', incoming, ignorePrice) && incoming.remaining < old(incoming.remaining)
    ensures Prepend(trades, Match(old(incoming.View()), v, ignorePrice))
            == Prepend(trades + [trade], Match(incoming.View(), v', ignorePrice))
    ensures Within(levels', Objects(levels), old(Nodes(levels)))
    ensures Dropped(ids, v, ids', v')
  {
    hide Sum, At, LinkedLevel.Views, LiveQueue, Sorted, Incoming, AfterHit, TradeOf, Match, SideIs, Prepend, NoDup, Ids;
    ghost var inc := incoming.View();
    ghost var n := Min(inc.remaining, v[0].remaining);
    StepAtPrice(inc, v, ignorePrice, best);
    v' := AfterHit(v, n);
    QueueAfterHit(v, Other(incoming.side), n);
    IdsAfterHit(v, n);
    HeadIn(v);
    trade, levels', ids' := TurnAt(levels, v, incoming, best, ids);
    PrependOne(trades, trade, Match(incoming.View(), v', ignorePrice));
  }

  lemma HeadIn(v: seq<Order>)
    requires v != []
    ensures v[0].id in Ids(v)
  {
  }

  /** The best price of a side is the price of the head of its queue. */
  lemma BestOfSide(levels: map<int, Level>, v: seq<Order>, side: Side, best: int)
    requires SideIs(levels, v) && Queue(v, side) && best in levels
    requires forall p :: p in levels ==> if side == Sell then best <= p else p <= best
    ensures v != [] && Px(v[0]) == best
  {
    hide Sum, Views, LiveQueue, Sorted;
    assert LevelIs(levels[best], v, best);
    var o := At(v, best)[0];
    var i :| 0 <= i < |v| && v[i] == o;
    BestIsFirst(v, side, best);
  }

  lemma HeadHasLevel(levels: map<int, Level>, v: seq<Order>)
    requires SideIs(levels, v)
    ensures v != [] ==> Px(v[0]) in levels.Keys
  {
  }

  /** The matching loop of the Node engine does what the flat queue specification says, and takes the orders that leave
      the queue out of the id map. */
  method MatchOrder(levels: map<int, Level>, ghost v: seq<Order>, incoming: OrderNode, ignorePrice: bool,
                    ids: map<string, OrderNode>)
    returns (trades: seq<Trade>, levels': map<int, Level>, ghost v': seq<Order>, ids': map<string, OrderNode>)
    requires Offered(levels, v, incoming, ignorePrice) && NoDup(v)
    modifies incoming`remaining, incoming`status, Objects(levels), Nodes(levels)
    ensures Offered(levels', v', incoming, ignorePrice)
    ensures Match(old(incoming.View()), v, ignorePrice) == Matched(incoming.View(), v', trades)
    ensures Within(levels', Objects(levels), old(Nodes(levels)))
    ensures Dropped(ids, v, ids', v')
  {
    hide LiveQueue, Sorted, Match, Prepend, Incoming, LevelIs, NoDup, Dropped;
    ghost var m := Match(incoming.View(), v, ignorePrice);
    trades, levels', v', ids' := [], levels, v, ids;
    NothingDropped(ids, v);
    PrependNothing(m);
    while incoming.remaining > 0
      invariant Offered(levels', v', incoming, ignorePrice) && Within(levels', Objects(levels), old(Nodes(levels)))
      invariant m == Prepend(trades, Match(incoming.View(), v', ignorePrice))
      invariant Dropped(ids, v, ids', v')
      decreases incoming.remaining
    {
      var best, found := BestPrice(levels', incoming.side == Buy);
      if !found {
        HeadHasLevel(levels', v');
        break;
      }
      BestOfSide(levels', v', Other(incoming.side), best);
      if !ignorePrice && (if incoming.side == Buy then best > incoming.price.value else best < incoming.price.value) {
        break;
      }
      var trade;
      ghost var w, known := v', ids';
      DroppedDistinct(ids, v, ids', v');
      trade, levels', v', ids' := TurnOn(levels', v', incoming, ignorePrice, best, trades, ids');
      DroppedThen(ids, v, known, w, ids', v');
      trades := trades + [trade];
    }
    MatchStopped(incoming.View(), v', ignorePrice, trades);
  }

  // ------------------------------------------------------ resting, cancelling

  /** A new order goes last on its own level, and no other level changes. */
  lemma InsertAtLevel(v: seq<Order>, o: Order, side: Side, p: int)
    requires Queue(v, side) && o.side == side
    ensures At(Insert(v, o), p) == At(v, p) + (if Px(o) == p then [o] else [])
  {
    hide Slot, LiveQueue, Sorted, At;
    var k := Slot(v, o);
    AtAppend(v[..k] + [o], v[k..], p);
    AtAppend(v[..k], [o], p);
    AtAppend(v[..k], v[k..], p);
    assert v[..k] + v[k..] == v;
    AtOne(o, p);
    if Px(o) == p {
      BehindAreWorse(v, o, side);
      NoneAtPrice(v[k..], p);
    }
  }

  lemma AtOne(o: Order, p: int)
    ensures At([o], p) == if Px(o) == p then [o] else []
  {
    assert At([o][1..], p) == [];
  }

  lemma BehindAreWorse(v: seq<Order>, o: Order, side: Side)
    requires Queue(v, side) && o.side == side
    ensures forall i :: 0 <= i < |v[Slot(v, o)..]| ==> Px(v[Slot(v, o)..][i]) != Px(o)
  {
    hide Slot, LiveQueue;
    var k := Slot(v, o);
    forall i | 0 <= i < |v[k..]|
      ensures Px(v[k..][i]) != Px(o)
    {
      assert i > 0 ==> Rank(v[k]) <= Rank(v[k + i]);
    }
  }

  /** Taking an order off the queue takes it off its level. */
  lemma {:induction false} WithoutAtLevel(v: seq<Order>, id: string, p: int)
    requires NoDup(v)
    ensures At(Without(v, id), p) == Without(At(v, p), id)
    decreases |v|
  {
    if v != [] {
      WithoutHead(v, id);
      WithoutAtLevel(v[1..], id, p);
      if Px(v[0]) == p {
        var w := At(v, p);
        WithoutHead(w, id);
        assert w[1..] == At(v[1..], p);
      } else if v[0].id == id {
        assert forall i :: 0 <= i < |At(v[1..], p)| ==> At(v[1..], p)[i] in v[1..];
        NotHeld(At(v[1..], p), id);
      }
    }
  }

  lemma WithoutHead(v: seq<Order>, id: string)
    requires v != []
    ensures Without(v, id) == if v[0].id == id then v[1..] else [v[0]] + Without(v[1..], id)
  {
    var k := IndexOf(v, id);
    if v[0].id != id && k < |v| {
      assert k == 1 + IndexOf(v[1..], id);
      assert v[..k] == [v[0]] + v[1..][..k - 1];
      assert v[k + 1..] == v[1..][k..];
    }
  }

  lemma NotHeld(v: seq<Order>, id: string)
    requires forall i :: 0 <= i < |v| ==> v[i].id != id
    ensures Without(v, id) == v
  {
  }

  /** Append an order to one level: what the others hold is untouched. */
  method AppendTo(levels: map<int, Level>, ghost v: seq<Order>, o: OrderNode, price: int)
    requires price in levels && o.price == Some(price) && o.remaining > 0
    requires o.level == null && o.prev == null && o.next == null
    requires forall p :: p in levels && p != price ==> LevelIs(levels[p], v, p)
    requires levels[price].price == price && levels[price].Valid() && levels[price].View() == At(v, price)
    modifies levels[price], levels[price].tail, o
    ensures o.View() == old(o.View())
    ensures forall p :: p in levels && p != price ==> LevelIs(levels[p], v, p)
    ensures levels[price].Valid() && levels[price].View() == At(v, price) + [o.View()]
    ensures levels[price].nodes == old(levels[price].nodes) + [o]
    ensures forall p :: p in levels && p != price ==> levels[p].nodes == old(levels[p].nodes)
  {
    hide Sum, At, Views, Level.Linked, Joined;
    var level := levels[price];
    Elsewhere(levels, v, o, price);
    var error := level.Append(o);
    assert error == None;
    forall p | p in levels && p != price
      ensures LevelIs(levels[p], v, p)
    {
      assert old(LevelIs(levels[p], v, p));
    }
  }

  /** An unattached order and the nodes of one level are on no other level. */
  lemma Elsewhere(levels: map<int, Level>, v: seq<Order>, o: OrderNode, price: int)
    requires price in levels && o.level == null && levels[price].Valid() && levels[price].price == price
    requires forall p :: p in levels && p != price ==> LevelIs(levels[p], v, p)
    ensures forall p :: p in levels && p != price ==> levels[p] != levels[price] && o !in levels[p].nodes
    ensures forall p :: p in levels && p != price ==> levels[price].tail !in levels[p].nodes
    ensures forall p, i, j :: p in levels && p != price && 0 <= i < |levels[p].nodes| && 0 <= j < |levels[price].nodes| ==>
              levels[p].nodes[i] != levels[price].nodes[j]
  {
    hide Sum, At, Views;
    forall p | p in levels && p != price
      ensures levels[p] != levels[price] && o !in levels[p].nodes && levels[price].tail !in levels[p].nodes
      ensures forall i :: 0 <= i < |levels[p].nodes| ==> levels[p].nodes[i].level == levels[p]
    {
      assert LevelIs(levels[p], v, p);
    }
  }

  /** The level of a price, made if there is none. */
  method EnsureLevel(levels: map<int, Level>, ghost v: seq<Order>, price: int) returns (levels': map<int, Level>)
    requires SideIs(levels, v)
    ensures levels'.Keys == levels.Keys + {price} && forall p :: p in levels ==> levels'[p] == levels[p]
    ensures forall p :: p in levels' && p != price ==> LevelIs(levels'[p], v, p)
    ensures levels'[price].price == price && levels'[price].Valid() && levels'[price].View() == At(v, price)
    ensures price in levels || (fresh(levels'[price]) && levels'[price].nodes == [])
  {
    hide Sum, At, Views;
    levels' := levels;
    if price !in levels {
      NoneAtPrice(v, price);
      var level := new Level(price);
      levels' := levels[price := level];
    } else {
      assert LevelIs(levels[price], v, price);
    }
  }

  lemma InsertPriced(levels: map<int, Level>, v: seq<Order>, o: Order)
    requires Px(o) in levels && forall i :: 0 <= i < |v| ==> Px(v[i]) in levels
    ensures forall i :: 0 <= i < |Insert(v, o)| ==> Px(Insert(v, o)[i]) in levels
  {
    hide Slot;
    forall i | 0 <= i < |Insert(v, o)|
      ensures Px(Insert(v, o)[i]) in levels
    {
      InsertAt(v, o, i);
    }
  }

  lemma TailIsNode(l: Level)
    requires l.Valid()
    ensures l.tail == null || l.tail in l.nodes
  {
  }

  /** Rest a live order on its side: last at its price. */
  method Rest(levels: map<int, Level>, ghost v: seq<Order>, o: OrderNode) returns (levels': map<int, Level>)
    requires SideIs(levels, v) && Queue(v, o.side) && Live(o.View())
    requires o.level == null && o.prev == null && o.next == null
    modifies Objects(levels), Nodes(levels), o
    ensures o.View() == old(o.View()) && SideIs(levels', Insert(v, o.View()))
    ensures forall p :: p in levels' ==> forall i :: 0 <= i < |levels'[p].nodes| ==>
              levels'[p].nodes[i] in old(Nodes(levels)) || levels'[p].nodes[i] == o
  {
    hide Sum, At, Views, Level.Linked, Joined, Queue, Insert, Level.View;
    var price := o.price.value;
    levels' := EnsureLevel(levels, v, price);
    ghost var x := o.View();
    forall p | p in levels'
      ensures At(Insert(v, x), p) == At(v, p) + (if p == price then [x] else [])
    {
      InsertAtLevel(v, x, o.side, p);
    }
    InsertPriced(levels', v, x);
    TailIsNode(levels'[price]);
    AppendTo(levels', v, o, price);
    forall p | p in levels'
      ensures LevelIs(levels'[p], Insert(v, x), p)
    {
      assert p != price ==> At(v, p) + [] == At(v, p);
    }
  }

  /** Ids are distinct on a level if they are in the queue. */
  lemma LevelDistinct(l: Level, v: seq<Order>, p: int)
    requires LevelIs(l, v, p) && NoDup(v)
    ensures forall i, j :: 0 <= i < j < |l.nodes| ==> l.nodes[i].id != l.nodes[j].id
  {
    hide Sum, At, Views;
    AtDistinct(v, p);
    forall i, j | 0 <= i < j < |l.nodes|
      ensures l.nodes[i].id != l.nodes[j].id
    {
      assert l.View()[i].id != l.View()[j].id;
    }
  }

  lemma {:induction false} AtDistinct(v: seq<Order>, p: int)
    requires NoDup(v)
    ensures NoDup(At(v, p))
  {
    if v != [] {
      AtDistinct(v[1..], p);
      var w := At(v[1..], p);
      forall i | 0 <= i < |w|
        ensures w[i].id != v[0].id
      {
        assert w[i] in v[1..];
        var j :| 0 <= j < |v[1..]| && v[1..][j] == w[i];
        assert v[j + 1] == w[i];
      }
    }
  }

  lemma WithoutPriced(levels: map<int, Level>, v: seq<Order>, id: string)
    requires forall i :: 0 <= i < |v| ==> Px(v[i]) in levels
    ensures forall i :: 0 <= i < |Without(v, id)| ==> Px(Without(v, id)[i]) in levels
  {
    hide IndexOf;
    var k, w := IndexOf(v, id), Without(v, id);
    assert forall i :: 0 <= i < |w| ==> w[i] == v[if i < k then i else i + 1];
  }

  /** No order of this id is at another price. */
  lemma OnlyThere(v: seq<Order>, id: string, price: int, p: int)
    requires NoDup(v) && p != price && Holds(At(v, price), id)
    ensures At(Without(v, id), p) == At(v, p)
  {
    hide At, IndexOf, Without;
    WithoutAtLevel(v, id, p);
    var o, w := At(v, price)[IndexOf(At(v, price), id)], At(v, p);
    var i :| 0 <= i < |v| && v[i] == o;
    forall k | 0 <= k < |w|
      ensures w[k].id != id
    {
      var j :| 0 <= j < |v| && v[j] == w[k];
      assert i != j;
      assert i < j ==> v[i].id != v[j].id;
      assert j < i ==> v[j].id != v[i].id;
    }
    NotHeld(w, id);
  }

  lemma HasLevel(l: Level, o: OrderNode)
    requires l.Valid() && o in l.nodes
    ensures o.level == l
  {
  }

  /** Cancel on one level: what the others hold is untouched. */
  method CancelOn(levels: map<int, Level>, ghost v: seq<Order>, o: OrderNode, ghost price: int)
    requires SideIs(levels, v) && LiveQueue(v) && NoDup(v) && price in levels && o in levels[price].nodes
    modifies levels[price], levels[price].nodes
    ensures o.View() == old(o.View()).(status := Cancelled)
    ensures levels[price].Valid() && levels[price].View() == Without(At(v, price), o.id)
    ensures forall p :: p in levels && p != price ==> LevelIs(levels[p], v, p) && levels[p].nodes == old(levels[p].nodes)
    ensures forall i :: 0 <= i < |levels[price].nodes| ==> levels[price].nodes[i] in old(levels[price].nodes)
  {
    hide Sum, At, Views, LiveQueue, Without, Joined, Level.Linked, Nodes;
    assert LevelIs(levels[price], v, price);
    AtLive(v, price);
    LevelDistinct(levels[price], v, price);
    ghost var level := levels[price];
    ghost var q := level.nodes;
    forall p | p in levels && p != price
      ensures LevelIs(levels[p], v, p) && levels[p] != level
      ensures forall x :: x in levels[p].nodes ==> x !in q
    {
      LevelsApart(levels, v, p, price);
    }
    HasLevel(level, o);
    o.level.CancelHere(o);
    forall p | p in levels && p != price
      ensures LevelIs(levels[p], v, p)
    {
      assert old(LevelIs(levels[p], v, p));
    }
  }

  /** The same, in terms of all levels: none has gained an order. */
  method CancelAmong(levels: map<int, Level>, ghost v: seq<Order>, o: OrderNode, ghost price: int)
    requires SideIs(levels, v) && LiveQueue(v) && NoDup(v) && price in levels && o in levels[price].nodes
    modifies levels[price], levels[price].nodes
    ensures o.View() == old(o.View()).(status := Cancelled)
    ensures levels[price].Valid() && levels[price].View() == Without(At(v, price), o.id)
    ensures forall p :: p in levels && p != price ==> LevelIs(levels[p], v, p)
    ensures Within(levels, Objects(levels), old(Nodes(levels)))
  {
    hide LevelIs, SideIs, LiveQueue, NoDup, Level.Valid;
    CancelOn(levels, v, o, price);
    forall p, i | p in levels && 0 <= i < |levels[p].nodes|
      ensures levels[p].nodes[i] in old(Nodes(levels))
    {
      assert levels[p].nodes[i] in old(levels[p].nodes);
    }
  }

  /** Cancel a resting order: it leaves its level, and an empty level is dropped. */
  method CancelResting(levels: map<int, Level>, ghost v: seq<Order>, o: OrderNode) returns (levels': map<int, Level>)
    requires SideIs(levels, v) && LiveQueue(v) && NoDup(v)
    requires o.price.Some? && o.price.value in levels && o in levels[o.price.value].nodes
    modifies Objects(levels), Nodes(levels)
    ensures o.View() == old(o.View()).(status := Cancelled)
    ensures SideIs(levels', Without(v, o.id)) && Within(levels', Objects(levels), old(Nodes(levels)))
  {
    hide Sum, At, Views, LiveQueue, Without, Level.Linked, Joined, NoDup;
    var price := o.price.value;
    var level := levels[price];
    ghost var w := Without(v, o.id);
    HeldThere(level, v, o, price);
    WithoutAtLevel(v, o.id, price);
    WithoutPriced(levels, v, o.id);
    NoneAtPrice(w, price);
    forall p | p in levels && p != price
      ensures At(w, p) == At(v, p)
    {
      OnlyThere(v, o.id, price, p);
    }
    assert levels[price] == level && LevelIs(level, v, price);
    CancelAmong(levels, v, o, price);
    levels' := levels;
    if level.count == 0 {
      levels' := levels - {price};
    }
  }

  lemma HeldThere(l: Level, v: seq<Order>, o: OrderNode, price: int)
    requires LevelIs(l, v, price) && o in l.nodes
    ensures Holds(At(v, price), o.id)
  {
    hide Sum, At, Views, IndexOf;
    var i :| 0 <= i < |l.nodes| && l.nodes[i] == o;
    assert l.View()[i].id == o.id;
  }
}
